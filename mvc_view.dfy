/** `xl::mvc::MVCView` (`XLangMVCView.cpp`): the annotating and printing entry points, and the
  * ASCII rendering of a tree as boxes and arrows in a fixed 200 x 200 character grid. */
module XLangMVCView {
  import opened Wrappers
  import opened XLangTreeContext
  import opened XLangString
  import opened XLangNode
  import opened XLangPrinter
  import opened XLangVisitor
  import opened XLangVisitorBFS

  // ---------------------------------------------------------------------
  // annotate_tree and the printers
  // ---------------------------------------------------------------------

  /** The annotator writes no text, so the renderings it is given are never used. */
  function Blank(): Show
  {
    Show((k: nat) => "", (u: NodeId) => "", (i: int) => "", (b: bv32) => "")
  }

  /** The traversal `annotate_tree` runs over `x` with the callback `filter`. */
  ghost function AnnotatorSetup(g: Graph, rank: map<NodeId, nat>, filter: Option<Filter>): Setup
  {
    Setup(g, rank, Annotator, Blank(), filter, true)
  }

  /** What the C++ code needs of the tree: the filter never accepts null, and no null child is
    * met on the way down (the annotator reads every child's height). */
  ghost predicate Annotatable(g: Graph, rank: map<NodeId, nat>, filter: Option<Filter>, x: Option<NodeId>)
  {
    Ranked(g, rank) && SlotIn(g, rank, x) && (filter.Some? ==> !filter.value(None))
    && (x.Some? ==> NullFree(g, rank, x.value))
  }

  /** The DFS half of `annotate_tree`: a `TreeAnnotator`, given the filter when there is one,
    * dispatched on `x`. Without a filter the root gets its true height and depth 0. */
  method AnnotateDepthFirst(store: NodeStore, x: Option<NodeId>, filter: Option<Filter>, ghost rank: map<NodeId, nat>)
    requires Annotatable(store.objs, rank, filter, x)
    modifies store`height, store`depth
    ensures var t := Run(AnnotatorSetup(store.objs, rank, filter), x, Trace("", 0, old(store.height), old(store.depth)));
      store.height == t.heights && store.depth == t.depths
    ensures filter.None? && x.Some? ==> (HeightRight(store.objs, rank, store.height, x.value)
      && x.value in store.depth && store.depth[x.value] == 0)
  {
    ghost var s := AnnotatorSetup(store.objs, rank, filter);
    ghost var t0 := Trace("", 0, store.height, store.depth);
    var v := new VisitorDFS(store, Annotator, Blank());
    if filter.Some? {
      v.SetFilterCb(filter.value);
    }
    v.Dispatch(x, s);
    if filter.None? {
      AnnotatedHeights(s, x, t0);
    }
  }

  /** The BFS half of `annotate_tree` on a symbol: `visit_next_child(symbol)` and then
    * `visit_next_child()` until it fails number the slots of the sweep from `[n]` in turn,
    * from 0. Without a filter `n` gets number 0. */
  method AnnotateBreadthFirst(store: NodeStore, n: NodeId, filter: Option<Filter>, ghost rank: map<NodeId, nat>)
    requires Ranked(store.objs, rank) && n in store.objs && n in rank
    modifies store`bfsIndex
    ensures SlotsIn(store.objs, rank, [Some(n)])
    ensures store.bfsIndex == Stamp(Numbering(old(store.bfsIndex), 0), true, Visits(store.objs, rank, filter, [Some(n)])).index
    ensures filter.None? ==> n in store.bfsIndex && store.bfsIndex[n] == 0
  {
    ghost var g := store.objs;
    ghost var nb0 := Numbering(store.bfsIndex, 0);
    var b := new TreeAnnotatorBFS(store);
    if filter.Some? {
      b.SetFilterCb(filter.value);
    }
    assert SlotsIn(g, rank, [Some(n)]);
    var ok, first := b.VisitNextChild(Some(n), rank);
    ghost var q := Skim(g, rank, filter, [Some(n)]);
    assert Visits(g, rank, filter, [Some(n)]) == [Some(n)] + Visits(g, rank, filter, q);
    assert b.Numbers() == StampOne(nb0, true, Some(n));
    Drain(b, ok, q, rank);
    if filter.None? {
      BfsNumbering(g, rank, n, nb0);
    }
  }

  /** `while(visit_next_child());` in the BFS half of `annotate_tree`, with `q` the queue of
    * slots still to visit (the stack holds it while `ok`): every slot of the sweep from `q`
    * is numbered in turn. */
  method Drain(b: TreeAnnotatorBFS, ok0: bool, ghost q0: seq<Option<NodeId>>, ghost rank: map<NodeId, nat>)
    requires Ranked(b.store.objs, rank) && SlotsIn(b.store.objs, rank, q0) && b.allowNull
    requires (ok0 ==> b.stack == [q0]) && (!ok0 ==> b.stack == [] && q0 == [])
    modifies b`stack, b`bfsIndex, b.store`bfsIndex
    ensures b.Numbers() == Stamp(old(b.Numbers()), true, Visits(b.store.objs, rank, b.filter, q0))
  {
    ghost var g, filter, nb0 := b.store.objs, b.filter, b.Numbers();
    var ok := ok0;
    ghost var q := q0;
    while ok
      invariant SlotsIn(g, rank, q) && QueuesIn(g, rank, b.stack)
      invariant ok ==> b.stack == [q]
      invariant !ok ==> b.stack == [] && q == []
      invariant Stamp(b.Numbers(), true, Visits(g, rank, filter, q)) == Stamp(nb0, true, Visits(g, rank, filter, q0))
      decreases QWeight(g, rank, q), ok
    {
      var next;
      ok, next := b.VisitNextChild(None, rank);
      if ok {
        q := Skim(g, rank, filter, q);
      }
    }
  }

  /** `annotate_tree`: always the DFS annotator, and the BFS annotator only for a symbol. */
  method AnnotateTree(store: NodeStore, x: Option<NodeId>, filter: Option<Filter>, ghost rank: map<NodeId, nat>)
    requires Annotatable(store.objs, rank, filter, x)
    modifies store`height, store`depth, store`bfsIndex
    ensures var t := Run(AnnotatorSetup(store.objs, rank, filter), x, Trace("", 0, old(store.height), old(store.depth)));
      store.height == t.heights && store.depth == t.depths
    ensures x.Some? && store.objs[x.value].body.Symbol? ==> (SlotsIn(store.objs, rank, [x]) &&
      store.bfsIndex == Stamp(Numbering(old(store.bfsIndex), 0), true, Visits(store.objs, rank, filter, [x])).index)
    ensures !(x.Some? && store.objs[x.value].body.Symbol?) ==> store.bfsIndex == old(store.bfsIndex)
  {
    AnnotateDepthFirst(store, x, filter, rank);
    if x.Some? && store.objs[x.value].body.Symbol? {
      AnnotateBreadthFirst(store, x.value, filter, rank);
    }
  }

  /** The traversal a printer runs over `x`. */
  ghost function PrinterSetup(g: Graph, rank: map<NodeId, nat>, fm: Form, sh: Show, filter: Option<Filter>): Setup
  {
    Setup(g, rank, Printer(fm), sh, filter, true)
  }

  /** Runs the printer with the form `fm` over `x` and returns what it writes. */
  method RunPrinter(store: NodeStore, x: Option<NodeId>, fm: Form, sh: Show, filter: Option<Filter>, ghost rank: map<NodeId, nat>)
      returns (out: string)
    requires Ranked(store.objs, rank) && SlotIn(store.objs, rank, x) && (filter.Some? ==> !filter.value(None))
    modifies store`height, store`depth
    ensures out == Run(PrinterSetup(store.objs, rank, fm, sh, filter), x, Trace("", 0, old(store.height), old(store.depth))).out
  {
    ghost var s := PrinterSetup(store.objs, rank, fm, sh, filter);
    var v := new VisitorDFS(store, Printer(fm), sh);
    if filter.Some? {
      v.SetFilterCb(filter.value);
    }
    v.Dispatch(x, s);
    out := v.out;
  }

  /** `print_lisp`: without a filter, the reference S-expression text from depth 0. */
  method PrintLisp(store: NodeStore, x: Option<NodeId>, sh: Show, filter: Option<Filter>, ghost rank: map<NodeId, nat>)
      returns (out: string)
    requires Ranked(store.objs, rank) && SlotIn(store.objs, rank, x) && (filter.Some? ==> !filter.value(None))
    modifies store`height, store`depth
    ensures out == Run(PrinterSetup(store.objs, rank, LispForm(sh), sh, filter), x, Trace("", 0, old(store.height), old(store.depth))).out
    ensures filter.None? ==> out == LispText(store.objs, rank, sh, x, 0)
  {
    ghost var t0 := Trace("", 0, store.height, store.depth);
    out := RunPrinter(store, x, LispForm(sh), sh, filter, rank);
    if filter.None? {
      LispOutput(PrinterSetup(store.objs, rank, LispForm(sh), sh, filter), x, t0);
    }
  }

  /** `print_xml`: without a filter, the reference XML text from depth 0. */
  method PrintXml(store: NodeStore, x: Option<NodeId>, sh: Show, filter: Option<Filter>, ghost rank: map<NodeId, nat>)
      returns (out: string)
    requires Ranked(store.objs, rank) && SlotIn(store.objs, rank, x) && (filter.Some? ==> !filter.value(None))
    modifies store`height, store`depth
    ensures out == Run(PrinterSetup(store.objs, rank, XmlForm(sh), sh, filter), x, Trace("", 0, old(store.height), old(store.depth))).out
    ensures filter.None? ==> out == XmlText(store.objs, rank, sh, x, 0)
  {
    ghost var t0 := Trace("", 0, store.height, store.depth);
    out := RunPrinter(store, x, XmlForm(sh), sh, filter, rank);
    if filter.None? {
      XmlOutput(PrinterSetup(store.objs, rank, XmlForm(sh), sh, filter), x, t0);
    }
  }

  /** `print_dot`: no filter is set; the reference DOT text. */
  method PrintDot(store: NodeStore, x: Option<NodeId>, sh: Show, horizontal: bool, block: bool, ghost rank: map<NodeId, nat>)
      returns (out: string)
    requires Ranked(store.objs, rank) && SlotIn(store.objs, rank, x) && TermsParented(store.objs, rank, x)
    modifies store`height, store`depth
    ensures out == DotText(store.objs, rank, sh, horizontal, block, x)
  {
    ghost var t0 := Trace("", 0, store.height, store.depth);
    out := RunPrinter(store, x, DotForm(sh, horizontal, block), sh, None, rank);
    DotOutput(PrinterSetup(store.objs, rank, DotForm(sh, horizontal, block), sh, None), horizontal, block, x, t0);
  }

  // ---------------------------------------------------------------------
  // The ASCII graph: layout
  // ---------------------------------------------------------------------

  /** `del`: the gap between a box's start column and its first character. */
  const Del := 1
  /** `eps`: the rows between a node's box and its children's boxes, arrows included. */
  const Eps := 3
  /** `lmax` and `cmax`: the size of the grid. */
  const LMax := 200
  const CMax := 200

  /** The renderings a box label uses: the `%ld` text of an integer (in `sh`), the `%f` text of
    * a float, and the symbol names (in `sh`). */
  datatype Labeling = Labeling(sh: Show, fixed: bv32 -> string)

  /** The text in a node's box: the number, the identifier's characters, or the symbol's name;
    * `???` for a string or a character. Each is read as a C string. */
  function Label(lb: Labeling, o: Object): (r: string)
    ensures '\0' !in r
  {
    match o.body
    case Symbol(_) => CString(lb.sh.name(o.lexerId))
    case Term(IntV(i)) => CString(lb.sh.intText(i))
    case Term(FloatV(b)) => CString(lb.fixed(b))
    case Term(IdentV(p)) => CString(p.text)
    case Term(_) => "???"
  }

  /** A terminal's text must fit in `word[20]` with its terminating NUL. */
  predicate Fits(lb: Labeling, o: Object)
  {
    o.body.Symbol? || |Label(lb, o)| < 20
  }

  /** `graphBox`: the box of text `s` is `strlen(s) + del` wide and 1 high. */
  function GraphBox(s: string): (r: (int, int))
    ensures |s| < r.0 && r.1 == 1
  {
    (|s| + Del, 1)
  }

  /** Where `exNode` puts a node: its end column `ce`, its middle column `cm`, and the start
    * column `cbar` of its box. */
  datatype Place = Place(ce: int, cm: int, cbar: int)

  /** A node that `exNode` draws with its box alone: a terminal or a symbol without children. */
  predicate Leaf(o: Object)
  {
    o.body.Term? || |o.body.children| == 0
  }

  /** The layout `exNode` computes for node `n` starting at column `c`: a leaf is as wide as
    * its box; a symbol spans its children, laid out side by side from `c`, and its box is
    * centred over them when it is narrower than they are. */
  ghost function Layout(g: Graph, rank: map<NodeId, nat>, lb: Labeling, n: NodeId, c: int): (p: Place)
    requires Ranked(g, rank) && n in g && n in rank
    ensures c <= p.cbar && p.cbar + GraphBox(Label(lb, g[n])).0 <= p.ce && c <= p.cm < p.ce
    ensures !Leaf(g[n]) ==> KidStart(g, rank, lb, n, |g[n].body.children|, c) <= p.ce
    decreases rank[n], 1
  {
    var w := GraphBox(Label(lb, g[n])).0;
    if Leaf(g[n]) then Place(c + w, c + w / 2, c)
    else
      var che := KidStart(g, rank, lb, n, |g[n].body.children|, c);
      if w < che - c then Place(che, (c + che) / 2, c + (che - c - w) / 2)
      else Place(c + w, c + w / 2, c)
  }

  /** The start column of child `k` of the symbol `n` laid out from `c`: `c` for the first,
    * the end column of child `k - 1` for the others. */
  ghost function KidStart(g: Graph, rank: map<NodeId, nat>, lb: Labeling, n: NodeId, k: nat, c: int): (r: int)
    requires Ranked(g, rank) && n in g && n in rank && g[n].body.Symbol? && k <= |g[n].body.children|
    ensures c <= r
    decreases rank[n], 0, k
  {
    if k == 0 then c
    else
      var prev := KidStart(g, rank, lb, n, k - 1, c);
      var x := g[n].body.children[k - 1];
      assert x in g[n].body.children;
      if x.Some? then Layout(g, rank, lb, x.value, prev).ce else prev
  }

  /** A drawable symbol with children has drawable children, laid out from its own start
    * column two rows below its box. */
  lemma SymbolDrawable(g: Graph, rank: map<NodeId, nat>, lb: Labeling, n: NodeId, c: int, l: int)
    requires Ranked(g, rank) && n in g && n in rank && Drawable(g, rank, lb, n, c, l) && !Leaf(g[n])
    ensures g[n].body.Symbol? && |g[n].body.children| > 0 && 0 <= c && 0 <= l < LMax
    ensures KidsDrawable(g, rank, lb, n, 0, c, l + 1 + Eps)
  {
  }

  /** The layout of a symbol with children whose last child ends at `che`. */
  lemma SymbolLayout(g: Graph, rank: map<NodeId, nat>, lb: Labeling, n: NodeId, c: int, che: int)
    requires Ranked(g, rank) && n in g && n in rank && !Leaf(g[n])
    requires che == KidStart(g, rank, lb, n, |g[n].body.children|, c)
    ensures var w := |Label(lb, g[n])| + Del;
      Layout(g, rank, lb, n, c) == if w < che - c then Place(che, (c + che) / 2, c + (che - c - w) / 2) else Place(c + w, c + w / 2, c)
  {
  }

  /** Child starts never move left. */
  lemma {:induction false} KidStartMonotone(g: Graph, rank: map<NodeId, nat>, lb: Labeling, n: NodeId, i: nat, k: nat, c: int)
    requires Ranked(g, rank) && n in g && n in rank && g[n].body.Symbol? && i <= k <= |g[n].body.children|
    ensures KidStart(g, rank, lb, n, i, c) <= KidStart(g, rank, lb, n, k, c)
    decreases k
  {
    if i < k {
      KidStartMonotone(g, rank, lb, n, i, k - 1, c);
    }
  }

  /** What `exNode` needs to stay inside the grid and inside `word`: every box lies in the
    * grid, every terminal text fits, and the first child of a symbol is not null. A null
    * first child leaves the end column `che` unset; a later null child is skipped by
    * `if(!p) return;` and leaves `che` and `chm` as the child before it set them. */
  ghost predicate Drawable(g: Graph, rank: map<NodeId, nat>, lb: Labeling, n: NodeId, c: int, l: int)
    requires Ranked(g, rank) && n in g && n in rank
    decreases rank[n], 1
  {
    0 <= c && 0 <= l < LMax && Layout(g, rank, lb, n, c).ce <= CMax && Fits(lb, g[n])
    && (g[n].body.Symbol? ==> KidsDrawable(g, rank, lb, n, 0, c, l + GraphBox(Label(lb, g[n])).1 + Eps))
  }

  /** Children `k` onwards of `n` are drawable at their start columns on row `l`. */
  ghost predicate KidsDrawable(g: Graph, rank: map<NodeId, nat>, lb: Labeling, n: NodeId, k: nat, c: int, l: int)
    requires Ranked(g, rank) && n in g && n in rank && g[n].body.Symbol? && k <= |g[n].body.children|
    decreases rank[n], 0, |g[n].body.children| - k
  {
    var cs := g[n].body.children;
    k < |cs| ==>
      assert cs[k] in cs;
      (k == 0 ==> cs[k].Some?)
      && (cs[k].Some? ==> Drawable(g, rank, lb, cs[k].value, KidStart(g, rank, lb, n, k, c), l))
      && KidsDrawable(g, rank, lb, n, k + 1, c, l)
  }

  /** The picture `drawn` of the tree rooted at `n` drawn from the top left corner: the root's
    * label is on the top row where the layout puts it, and everything right of the layout is
    * blank. */
  ghost predicate Pictured(g: Graph, rank: map<NodeId, nat>, lb: Labeling, n: NodeId, drawn: seq<seq<char>>)
    requires Ranked(g, rank) && n in g && n in rank
    requires Layout(g, rank, lb, n, 0).ce <= CMax
    requires |drawn| == LMax && forall k :: 0 <= k < LMax ==> |drawn[k]| == CMax
  {
    (forall k :: 0 <= k < |Label(lb, g[n])| ==> drawn[0][Layout(g, rank, lb, n, 0).cbar + Del + k] == Label(lb, g[n])[k])
    && (forall i, j :: 0 <= i < LMax && Layout(g, rank, lb, n, 0).ce <= j < CMax ==> drawn[i][j] == ' ')
  }

  /** What child `k` gives `exNode`'s loops: the first child is not null; a non-null child is
    * drawable at its start column and ends where the next child starts; a null child takes
    * no width; and the children after it are drawable. */
  lemma KidStep(g: Graph, rank: map<NodeId, nat>, lb: Labeling, n: NodeId, k: nat, c: int, l: int)
    requires Ranked(g, rank) && n in g && n in rank && g[n].body.Symbol? && k < |g[n].body.children|
    requires KidsDrawable(g, rank, lb, n, k, c, l)
    ensures var x := g[n].body.children[k];
      (k == 0 ==> x.Some?)
      && (x.Some? ==>
            x.value in g && x.value in rank && rank[x.value] < rank[n]
            && Drawable(g, rank, lb, x.value, KidStart(g, rank, lb, n, k, c), l)
            && KidStart(g, rank, lb, n, k + 1, c) == Layout(g, rank, lb, x.value, KidStart(g, rank, lb, n, k, c)).ce)
      && (x.None? ==> KidStart(g, rank, lb, n, k + 1, c) == KidStart(g, rank, lb, n, k, c))
      && KidsDrawable(g, rank, lb, n, k + 1, c, l)
  {
    assert g[n].body.children[k] in g[n].body.children;
  }

  // ---------------------------------------------------------------------
  // The ASCII graph: the grid
  // ---------------------------------------------------------------------

  /** `x` lies from `a` (included) towards `b` (excluded), whichever way they are ordered. */
  predicate Between(a: int, x: int, b: int)
  {
    (a <= x < b) || (b < x <= a)
  }

  function Min(a: int, b: int): int { if a <= b then a else b }
  function Max(a: int, b: int): int { if a <= b then b else a }

  /** What `graphDrawArrow(c1, l1, c2, l2)` leaves in cell `(i, j)`, if anything, latest
    * write first: a final `|` at `(l2, c2)`; `|` in column `c2` from the middle row `m`
    * towards `l2`; `-` along row `m` from `c1` towards `c2`; `|` in column `c1` from `l1`
    * towards `m`. Nothing lands outside the rectangle the two ends span. */
  function ArrowAt(c1: int, l1: int, c2: int, l2: int, i: int, j: int): (r: Option<char>)
    ensures r.Some? ==> Min(l1, l2) <= i <= Max(l1, l2) && Min(c1, c2) <= j <= Max(c1, c2)
  {
    var m := (l1 + l2) / 2;
    if i == l2 && j == c2 then Some('|')
    else if j == c2 && Between(m, i, l2) then Some('|')
    else if i == m && Between(c1, j, c2) then Some('-')
    else if j == c1 && Between(l1, i, m) then Some('|')
    else None
  }

  /** A cell that `o` may overwrite. */
  function Over(o: Option<char>, d: char): char
  {
    if o.Some? then o.value else d
  }

  /** The arrow `exNode` draws from a parent's middle column `c1` on row `l` to the middle
    * column `c2` of a child two rows further down: a `|` under the parent, a run of `-` on
    * the row between ending in a `|` above the child, and a `|` on the child's side. */
  lemma TreeArrow(c1: int, c2: int, l: int, i: int, j: int)
    requires 0 <= l
    ensures ArrowAt(c1, l, c2, l + 2, i, j) ==
      if i == l && j == c1 then Some('|')
      else if i == l + 1 && j == c2 then Some('|')
      else if i == l + 1 && Between(c1, j, c2) then Some('-')
      else if i == l + 2 && j == c2 then Some('|')
      else None
  {
    assert (l + l + 2) / 2 == l + 1;
  }

  /** Both ends of an arrow are drawn. */
  lemma ArrowEnds(c1: int, l1: int, c2: int, l2: int)
    requires 0 <= l1 && 0 <= l2
    ensures ArrowAt(c1, l1, c2, l2, l1, c1).Some? && ArrowAt(c1, l1, c2, l2, l2, c2) == Some('|')
  {
    var m := (l1 + l2) / 2;
    assert Min(l1, l2) <= m <= Max(l1, l2);
  }

  /** `graphFinish`'s scan for the last non-space of a row: down from `j` while the column is
    * positive and holds a space. */
  function LastInk(row: seq<char>, j: nat): (r: nat)
    requires j < |row|
    ensures r <= j && (r > 0 ==> row[r] != ' ')
    ensures forall k :: r < k <= j ==> row[k] == ' '
  {
    if j > 0 && row[j] == ' ' then LastInk(row, j - 1) else j
  }

  /** A row as `graphFinish` leaves it: column `cmax - 1` and the column after the last
    * non-space cleared, and column 0 too when the row holds nothing else. */
  function CutRow(row: seq<char>): (r: seq<char>)
    requires |row| == CMax
    ensures |r| == CMax && r[CMax - 1] == '\0'
  {
    var j := LastInk(row, CMax - 1);
    var r1 := row[CMax - 1 := '\0'];
    var r2 := if j < CMax - 1 then r1[j + 1 := '\0'] else r1;
    if r2[j] == ' ' then r2[j := '\0'] else r2
  }

  /** `s` without its trailing spaces. */
  function TrimRight(s: string): (r: string)
    ensures r <= s
  {
    if s != [] && s[|s| - 1] == ' ' then TrimRight(s[..|s| - 1]) else s
  }

  lemma {:induction false} TrimSpaces(s: string, m: nat)
    requires m <= |s| && (m == 0 || s[m - 1] != ' ') && forall k :: m <= k < |s| ==> s[k] == ' '
    ensures TrimRight(s) == s[..m]
    decreases |s|
  {
    if |s| > m {
      TrimSpaces(s[..|s| - 1], m);
    } else {
      assert s[..m] == s;
    }
  }

  lemma {:induction false} CStringAt(s: string, m: nat)
    requires m < |s| && s[m] == '\0' && forall k :: 0 <= k < m ==> s[k] != '\0'
    ensures CString(s) == s[..m]
    decreases m
  {
    if m > 0 {
      CStringAt(s[1..], m - 1);
      assert s[..m] == [s[0]] + s[1..][..m - 1];
    }
  }

  /** The cells `graphFinish` clears in a row: the last column, the one after the last
    * non-space, and the last non-space itself when it is a space (column 0 of a blank row). */
  lemma CutRowCells(row: seq<char>)
    requires |row| == CMax
    ensures var j := LastInk(row, CMax - 1);
      forall k :: 0 <= k < CMax ==>
        CutRow(row)[k] == if k == CMax - 1 || k == j + 1 || (k == j && row[j] == ' ') then '\0' else row[k]
  {
  }

  /** The text `graphFinish` prints for a row it has cut: the row up to its last column with
    * the trailing spaces removed, or the first `cmax - 1` characters as they are when the last
    * column is not a space. */
  lemma RowText(row: seq<char>)
    requires |row| == CMax && '\0' !in row
    ensures CString(CutRow(row)) == if row[CMax - 1] == ' ' then TrimRight(row[..CMax - 1]) else row[..CMax - 1]
  {
    var j := LastInk(row, CMax - 1);
    if row[CMax - 1] != ' ' {
      InkedRowText(row);
    } else if row[j] != ' ' {
      TrimmedRowText(row, j);
    } else {
      BlankRowText(row);
    }
  }

  /** A row whose last column is not a space prints as the row without that column. */
  lemma InkedRowText(row: seq<char>)
    requires |row| == CMax && '\0' !in row && row[CMax - 1] != ' '
    ensures CString(CutRow(row)) == row[..CMax - 1]
  {
    var r := CutRow(row);
    CutRowCells(row);
    CStringAt(r, CMax - 1);
    assert r[..CMax - 1] == row[..CMax - 1];
  }

  /** A row ending in spaces after a non-space at `j` prints as the row up to `j`. */
  lemma TrimmedRowText(row: seq<char>, j: nat)
    requires |row| == CMax && '\0' !in row && row[CMax - 1] == ' '
    requires j == LastInk(row, CMax - 1) && row[j] != ' '
    ensures CString(CutRow(row)) == TrimRight(row[..CMax - 1])
  {
    var r := CutRow(row);
    CutRowCells(row);
    CStringAt(r, j + 1);
    assert r[..j + 1] == row[..j + 1] == row[..CMax - 1][..j + 1];
    TrimSpaces(row[..CMax - 1], j + 1);
  }

  /** A row of spaces prints as nothing. */
  lemma BlankRowText(row: seq<char>)
    requires |row| == CMax && row[CMax - 1] == ' ' && row[LastInk(row, CMax - 1)] == ' '
    ensures CString(CutRow(row)) == TrimRight(row[..CMax - 1]) == ""
  {
    var r := CutRow(row);
    CutRowCells(row);
    assert LastInk(row, CMax - 1) == 0;
    CStringAt(r, 0);
    TrimSpaces(row[..CMax - 1], 0);
  }

  /** `graphFinish`'s scan for the last row to print: down from `i` while the row is positive
    * and starts with a NUL. */
  function LastRow(rows: seq<seq<char>>, i: nat): (r: nat)
    requires i < |rows| && forall k :: 0 <= k < |rows| ==> rows[k] != []
    ensures r <= i
  {
    if i > 0 && rows[i][0] == '\0' then LastRow(rows, i - 1) else i
  }

  /** The text of the first `n` rows, each on a line of its own. */
  function Listing(rows: seq<seq<char>>, n: nat): string
    requires n <= |rows|
  {
    if n == 0 then "" else Listing(rows, n - 1) + "\n" + CString(rows[n - 1])
  }

  /** Every row of a grid after `graphFinish`. */
  function CutRows(rows: seq<seq<char>>): (r: seq<seq<char>>)
    requires |rows| == LMax && forall k :: 0 <= k < LMax ==> |rows[k]| == CMax
    ensures |r| == LMax && forall k :: 0 <= k < LMax ==> r[k] == CutRow(rows[k])
  {
    seq(LMax, (k: int) requires 0 <= k < LMax => CutRow(rows[k]))
  }

  /** What `graphFinish` prints for the grid `rows` as graph number `number`. */
  function GraphText(intText: int -> string, number: nat, rows: seq<seq<char>>): string
    requires |rows| == LMax && forall k :: 0 <= k < LMax ==> |rows[k]| == CMax
  {
    var cut := CutRows(rows);
    "\n\nGraph " + intText(number) + ":\n" + Listing(cut, LastRow(cut, LMax - 1) + 1) + "\n"
  }

  /** `GraphText` in terms of the cut grid and the last row to print. */
  lemma GraphTextIs(intText: int -> string, number: nat, rows: seq<seq<char>>, cut: seq<seq<char>>, i: nat)
    requires |rows| == LMax && forall k :: 0 <= k < LMax ==> |rows[k]| == CMax
    requires cut == CutRows(rows) && i == LastRow(cut, LMax - 1)
    ensures GraphText(intText, number, rows) == "\n\nGraph " + intText(number) + ":\n" + Listing(cut, i + 1) + "\n"
  {
  }

  /** A blank grid prints as a header and one empty line. */
  lemma BlankGraphText(intText: int -> string, number: nat, rows: seq<seq<char>>)
    requires |rows| == LMax && forall k :: 0 <= k < LMax ==> rows[k] == seq(CMax, (j: int) => ' ')
    ensures GraphText(intText, number, rows) == "\n\nGraph " + intText(number) + ":\n" + "\n" + "\n"
  {
    var cut := CutRows(rows);
    forall k | 0 <= k < LMax ensures cut[k][0] == '\0' {
      assert LastInk(rows[k], CMax - 1) == 0;
    }
    assert LastRow(cut, LMax - 1) == 0 by {
      LastRowBlank(cut, LMax - 1);
    }
    CStringAt(cut[0], 0);
    assert Listing(cut, 1) == "\n";
  }

  lemma {:induction false} LastRowBlank(rows: seq<seq<char>>, i: nat)
    requires i < |rows| && forall k :: 0 <= k < |rows| ==> rows[k] != [] && rows[k][0] == '\0'
    ensures LastRow(rows, i) == 0
  {
    if i > 0 {
      LastRowBlank(rows, i - 1);
    }
  }

  /** `graph[lmax][cmax]` and `graphNumber`, with what `printf` writes. */
  class AsciiGraph {
    const lb: Labeling
    /** `graph`, row-major: `grid[l, c]` is row `l`, column `c`. */
    const grid: array2<char>
    /** `graphNumber` */
    var number: nat
    /** What has been written to standard output. */
    var out: string

    /** The globals at program start: a zeroed grid and graph number 0. */
    constructor(lb: Labeling)
      ensures this.lb == lb && Valid() && fresh(grid) && number == 0 && out == ""
      ensures forall i, j :: 0 <= i < LMax && 0 <= j < CMax ==> grid[i, j] == '\0'
    {
      this.lb := lb;
      grid := new char[LMax, CMax]((i: int, j: int) => '\0');
      number := 0;
      out := "";
    }

    predicate Valid()
    {
      grid.Length0 == LMax && grid.Length1 == CMax
    }

    /** Row `i` of the grid. */
    ghost function Row(i: int): seq<char>
      requires Valid() && 0 <= i < LMax
      reads grid
    {
      seq(CMax, (j: int) requires 0 <= j < CMax reads grid => grid[i, j])
    }

    /** The whole grid, row by row. */
    ghost function Rows(): (r: seq<seq<char>>)
      requires Valid()
      reads grid
      ensures |r| == LMax && forall k :: 0 <= k < LMax ==> r[k] == Row(k) && |r[k]| == CMax
    {
      seq(LMax, (i: int) requires 0 <= i < LMax reads grid => Row(i))
    }

    /** `graphInit`: every cell a space. */
    method GraphInit()
      requires Valid()
      modifies grid
      ensures forall i, j :: 0 <= i < LMax && 0 <= j < CMax ==> grid[i, j] == ' '
    {
      for i := 0 to LMax
        invariant forall a, b :: 0 <= a < i && 0 <= b < CMax ==> grid[a, b] == ' '
      {
        for j := 0 to CMax
          invariant forall a, b :: 0 <= a < i && 0 <= b < CMax ==> grid[a, b] == ' '
          invariant forall b :: 0 <= b < j ==> grid[i, b] == ' '
        {
          grid[i, j] := ' ';
        }
      }
    }

    /** The message `graphTest` prints for a cell outside the grid. */
    function ErrorText(l: int, c: int): string
    {
      "\n+++error: l=" + lb.sh.intText(l) + ", c=" + lb.sh.intText(c) + " not in drawing rectangle 0, 0 ... "
      + lb.sh.intText(LMax) + ", " + lb.sh.intText(CMax)
    }

    /** `graphTest`: a cell outside the grid is reported, and nothing else happens. */
    method GraphTest(l: int, c: int)
      modifies this`out
      ensures out == old(out) + (if 0 <= l < LMax && 0 <= c < CMax then "" else ErrorText(l, c))
    {
      if !(0 <= l < LMax && 0 <= c < CMax) {
        out := out + ErrorText(l, c);
      }
    }

    /** `graphDrawBox(s, c, l)`: the characters of `s` on row `l` from column `c + del`;
      * no other cell changes. */
    method GraphDrawBox(s: string, c: int, l: int)
      requires Valid() && '\0' !in s && 0 <= l < LMax && 0 <= c && c + |s| + Del <= CMax
      modifies grid, this`out
      ensures out == old(out)
      ensures forall i, j :: 0 <= i < LMax && 0 <= j < CMax ==>
        grid[i, j] == if i == l && c + Del <= j < c + Del + |s| then s[j - c - Del] else old(grid[i, j])
    {
      GraphTest(l, c + |s| - 1 + Del);
      assert out == old(out) + "";
      for i := 0 to |s|
        invariant out == old(out)
        invariant forall a, b :: 0 <= a < LMax && 0 <= b < CMax ==>
          grid[a, b] == if a == l && c + Del <= b < c + Del + i then s[b - c - Del] else old(grid[a, b])
      {
        grid[l, c + i + Del] := s[i];
      }
    }

    /** `graphDrawArrow(c1, l1, c2, l2)`: the arrow's cells get its characters; no other cell
      * changes. */
    method GraphDrawArrow(c1: int, l1: int, c2: int, l2: int)
      requires Valid() && 0 <= l1 < LMax && 0 <= c1 < CMax && 0 <= l2 < LMax && 0 <= c2 < CMax
      modifies grid, this`out
      ensures out == old(out)
      ensures forall i, j :: 0 <= i < LMax && 0 <= j < CMax ==> grid[i, j] == Over(ArrowAt(c1, l1, c2, l2, i, j), old(grid[i, j]))
    {
      GraphTest(l1, c1);
      GraphTest(l2, c2);
      assert out == old(out) + "" + "";
      var m := (l1 + l2) / 2;
      DrawUpright(c1, l1, m);
      DrawAcross(m, c1, c2);
      DrawUpright(c2, m, l2);
      grid[l2, c2] := '|';
    }

    /** One of the vertical loops of `graphDrawArrow`: `|` in column `c` from row `from`
      * towards row `to`, row `to` left out. */
    method DrawUpright(c: int, from: int, to: int)
      requires Valid() && 0 <= c < CMax && 0 <= from < LMax && 0 <= to < LMax
      modifies grid
      ensures forall i, j :: 0 <= i < LMax && 0 <= j < CMax ==>
        grid[i, j] == if j == c && Between(from, i, to) then '|' else old(grid[i, j])
    {
      var a := from;
      while a != to
        invariant Min(from, to) <= a <= Max(from, to)
        invariant forall i, j :: 0 <= i < LMax && 0 <= j < CMax ==>
          grid[i, j] == if j == c && Between(from, i, a) then '|' else old(grid[i, j])
        decreases if a <= to then to - a else a - to
      {
        grid[a, c] := '|';
        if a < to { a := a + 1; } else { a := a - 1; }
      }
    }

    /** The horizontal loop of `graphDrawArrow`: `-` on row `l` from column `from` towards
      * column `to`, column `to` left out. */
    method DrawAcross(l: int, from: int, to: int)
      requires Valid() && 0 <= l < LMax && 0 <= from < CMax && 0 <= to < CMax
      modifies grid
      ensures forall i, j :: 0 <= i < LMax && 0 <= j < CMax ==>
        grid[i, j] == if i == l && Between(from, j, to) then '-' else old(grid[i, j])
    {
      var b := from;
      while b != to
        invariant Min(from, to) <= b <= Max(from, to)
        invariant forall i, j :: 0 <= i < LMax && 0 <= j < CMax ==>
          grid[i, j] == if i == l && Between(from, j, b) then '-' else old(grid[i, j])
        decreases if b <= to then to - b else b - to
      {
        grid[l, b] := '-';
        if b < to { b := b + 1; } else { b := b - 1; }
      }
    }

    /** `graphFinish`: every row is cut after its last non-space (see `CutRow`), then the
      * graph number is printed and moves on, and the rows up to the last one that does not
      * start with a NUL are printed, each on a line of its own. */
    method GraphFinish()
      requires Valid()
      modifies grid, this`out, this`number
      ensures number == old(number) + 1
      ensures Rows() == CutRows(old(Rows()))
      ensures out == old(out) + GraphText(lb.sh.intText, old(number), old(Rows()))
    {
      ghost var before := Rows();
      CutAll();
      var i := LastRowIndex();
      GraphTextIs(lb.sh.intText, number, before, Rows(), i);
      PrintNumbered(i);
    }

    /** `graphFinish`'s printing: the graph number, which moves on, then rows `0` to `i`. */
    method PrintNumbered(i: int)
      requires Valid() && 0 <= i < LMax
      modifies this`out, this`number
      ensures number == old(number) + 1
      ensures out == old(out) + ("\n\nGraph " + lb.sh.intText(old(number)) + ":\n" + Listing(Rows(), i + 1) + "\n")
    {
      var head := "\n\nGraph " + lb.sh.intText(number) + ":\n";
      ghost var out0, text := out, Listing(Rows(), i + 1);
      out := out + head;
      number := number + 1;
      PrintRows(i + 1);
      assert out == (out0 + head) + text;
      out := out + "\n";
      assert out == out0 + (head + text + "\n");
    }

    /** `graphFinish`'s first loop: every row is cut. */
    method CutAll()
      requires Valid()
      modifies grid
      ensures Rows() == CutRows(old(Rows()))
    {
      ghost var before := Rows();
      ghost var cut := CutRows(before);
      for i := 0 to LMax
        invariant forall a :: 0 <= a < i ==> Row(a) == cut[a]
        invariant forall a :: i <= a < LMax ==> Row(a) == before[a]
      {
        CutRowAt(i);
      }
    }

    /** `graphFinish`'s second loop: the last row to print. */
    method LastRowIndex() returns (i: int)
      requires Valid()
      ensures 0 <= i < LMax && i == LastRow(Rows(), LMax - 1)
    {
      i := LMax - 1;
      while i > 0 && grid[i, 0] == '\0'
        invariant 0 <= i < LMax && LastRow(Rows(), LMax - 1) == LastRow(Rows(), i)
      {
        assert grid[i, 0] == Rows()[i][0];
        i := i - 1;
      }
      assert i > 0 ==> grid[i, 0] == Rows()[i][0];
    }

    /** One turn of `graphFinish`'s first loop: row `i` is cut; no other row changes. */
    method CutRowAt(i: int)
      requires Valid() && 0 <= i < LMax
      modifies grid
      ensures Row(i) == CutRow(old(Row(i)))
      ensures forall a :: 0 <= a < LMax && a != i ==> Row(a) == old(Row(a))
    {
      ghost var row := Row(i);
      var j := CMax - 1;
      while j > 0 && grid[i, j] == ' '
        invariant 0 <= j < CMax && LastInk(row, CMax - 1) == LastInk(row, j)
      {
        assert grid[i, j] == row[j];
        j := j - 1;
      }
      assert j > 0 ==> grid[i, j] == row[j];
      grid[i, CMax - 1] := '\0';
      if j < CMax - 1 {
        grid[i, j + 1] := '\0';
      }
      if grid[i, j] == ' ' {
        grid[i, j] := '\0';
      }
      assert Row(i) == CutRow(row);
    }

    /** `graphFinish`'s last loop: rows `0` to `n - 1`, each on a line of its own. */
    method PrintRows(n: int)
      requires Valid() && 0 <= n <= LMax
      modifies this`out
      ensures out == old(out) + Listing(Rows(), n)
    {
      ghost var rows := Rows();
      for j := 0 to n
        invariant out == old(out) + Listing(rows, j)
      {
        var row := seq(CMax, (k: int) requires 0 <= k < CMax reads grid => grid[j, k]);
        assert row == Row(j) == rows[j];
        out := out + "\n" + CString(row);
      }
    }

    /** `ex`: a fresh blank grid, the tree rooted at `p` drawn from its top left corner (nothing
      * for a null root), and the grid printed as the next graph. `drawn` is the picture as it
      * stood when printing began. */
    method Ex(store: NodeStore, p: Option<NodeId>, ghost rank: map<NodeId, nat>) returns (r: int, ghost drawn: seq<seq<char>>)
      requires Valid() && Ranked(store.objs, rank)
      requires p.Some? ==> p.value in store.objs && p.value in rank && Drawable(store.objs, rank, lb, p.value, 0, 0)
      modifies grid, this`out, this`number
      ensures r == 0 && number == old(number) + 1
      ensures |drawn| == LMax && forall k :: 0 <= k < LMax ==> |drawn[k]| == CMax
      ensures out == old(out) + GraphText(lb.sh.intText, old(number), drawn)
      ensures Rows() == CutRows(drawn)
      ensures p.None? ==> forall k :: 0 <= k < LMax ==> drawn[k] == seq(CMax, (j: int) => ' ')
      ensures p.Some? ==> Pictured(store.objs, rank, lb, p.value, drawn)
    {
      drawn := DrawPicture(store, p, rank);
      GraphFinish();
      r := 0;
    }

    /** The drawing half of `ex`: a fresh blank grid, then the tree rooted at `p` drawn from
      * its top left corner (nothing for a null root); `drawn` is the picture it leaves. */
    method DrawPicture(store: NodeStore, p: Option<NodeId>, ghost rank: map<NodeId, nat>) returns (ghost drawn: seq<seq<char>>)
      requires Valid() && Ranked(store.objs, rank)
      requires p.Some? ==> p.value in store.objs && p.value in rank && Drawable(store.objs, rank, lb, p.value, 0, 0)
      modifies grid, this`out
      ensures out == old(out) && drawn == Rows()
      ensures p.None? ==> forall k :: 0 <= k < LMax ==> drawn[k] == seq(CMax, (j: int) => ' ')
      ensures p.Some? ==> Pictured(store.objs, rank, lb, p.value, drawn)
    {
      GraphInit();
      if p.Some? {
        drawn := DrawTree(store, p.value, rank);
      } else {
        drawn := BlankRows();
      }
    }

    /** The rows of a blank grid. */
    ghost method BlankRows() returns (drawn: seq<seq<char>>)
      requires Valid() && forall i, j :: 0 <= i < LMax && 0 <= j < CMax ==> grid[i, j] == ' '
      ensures drawn == Rows() && forall k :: 0 <= k < LMax ==> drawn[k] == seq(CMax, (j: int) => ' ')
    {
      drawn := Rows();
      forall k | 0 <= k < LMax ensures drawn[k] == seq(CMax, (j: int) => ' ') {
        assert drawn[k] == Row(k);
      }
    }

    /** `ex`'s call `exNode(p, 0, 0, ...)` on a blank grid: the picture it leaves has the root's
      * label on the top row where the layout puts it, and is blank right of the layout. */
    method DrawTree(store: NodeStore, n: NodeId, ghost rank: map<NodeId, nat>) returns (ghost drawn: seq<seq<char>>)
      requires Valid() && Ranked(store.objs, rank) && n in store.objs && n in rank
      requires Drawable(store.objs, rank, lb, n, 0, 0)
      requires forall i, j :: 0 <= i < LMax && 0 <= j < CMax ==> grid[i, j] == ' '
      modifies grid, this`out
      ensures out == old(out) && drawn == Rows()
      ensures Pictured(store.objs, rank, lb, n, drawn)
    {
      var ce, cm := ExNode(store, n, 0, 0, rank);
      drawn := Rows();
      ghost var lay, s := Layout(store.objs, rank, lb, n, 0), Label(lb, store.objs[n]);
      assert LabelShown(0, lay.cbar, s);
      forall k | 0 <= k < |s|
        ensures drawn[0][lay.cbar + Del + k] == s[k]
      {
        assert drawn[0] == Row(0);
      }
      forall i, j | 0 <= i < LMax && lay.ce <= j < CMax
        ensures drawn[i][j] == ' '
      {
        assert drawn[i] == Row(i);
      }
    }

    /** `print_graph`: the graph of `p`, then an end of line. */
    method PrintGraph(store: NodeStore, p: Option<NodeId>, ghost rank: map<NodeId, nat>) returns (ghost drawn: seq<seq<char>>)
      requires Valid() && Ranked(store.objs, rank)
      requires p.Some? ==> p.value in store.objs && p.value in rank && Drawable(store.objs, rank, lb, p.value, 0, 0)
      modifies grid, this`out, this`number
      ensures number == old(number) + 1
      ensures |drawn| == LMax && forall k :: 0 <= k < LMax ==> |drawn[k]| == CMax
      ensures out == old(out) + GraphText(lb.sh.intText, old(number), drawn) + "\n"
      ensures p.None? ==> out == old(out) + "\n\nGraph " + lb.sh.intText(old(number)) + ":\n" + "\n" + "\n" + "\n"
    {
      var r;
      r, drawn := Ex(store, p, rank);
      if p.None? {
        BlankGraphText(lb.sh.intText, old(number), drawn);
      }
      out := out + "\n";
    }

    /** `exNode(p, c, l, &ce, &cm)`: draws node `n` with its box on row `l` from column `c`
      * and its subtree below, and returns the end and middle columns of its layout. The box
      * is where the layout puts it, and nothing outside the rows from `l` down and the columns
      * `c` to `ce` changes. The children are drawn twice, as the C++ code does, the second time
      * with the arrows from this node. */
    method ExNode(store: NodeStore, n: NodeId, c: int, l: int, ghost rank: map<NodeId, nat>) returns (ce: int, cm: int)
      requires Valid() && Ranked(store.objs, rank) && n in store.objs && n in rank
      requires Drawable(store.objs, rank, lb, n, c, l)
      modifies grid, this`out
      ensures out == old(out)
      ensures ce == Layout(store.objs, rank, lb, n, c).ce && cm == Layout(store.objs, rank, lb, n, c).cm
      ensures c <= cm < ce <= CMax
      ensures forall i, j :: 0 <= i < LMax && 0 <= j < CMax && !(l <= i && c <= j < ce) ==> grid[i, j] == old(grid[i, j])
      ensures LabelShown(l, Layout(store.objs, rank, lb, n, c).cbar, Label(lb, store.objs[n]))
      decreases rank[n], 2
    {
      var o := store.objs[n];
      if Leaf(o) {
        var s := Label(lb, o);
        var (w, h) := GraphBox(s);
        ce := c + w;
        cm := c + w / 2;
        GraphDrawBox(s, c, l);
        assert LabelShown(l, c, s);
        assert Layout(store.objs, rank, lb, n, c) == Place(ce, cm, c);
      } else {
        ce, cm := ExSymbol(store, n, c, l, rank);
      }
    }

    /** `exNode` for a symbol with children: the children laid out below first, then the
      * box, centred over them when they are wider, then the arrows. */
    method ExSymbol(store: NodeStore, n: NodeId, c: int, l: int, ghost rank: map<NodeId, nat>) returns (ce: int, cm: int)
      requires Valid() && Ranked(store.objs, rank) && n in store.objs && n in rank
      requires Drawable(store.objs, rank, lb, n, c, l) && !Leaf(store.objs[n])
      modifies grid, this`out
      ensures out == old(out)
      ensures ce == Layout(store.objs, rank, lb, n, c).ce && cm == Layout(store.objs, rank, lb, n, c).cm
      ensures c <= cm < ce <= CMax
      ensures forall i, j :: 0 <= i < LMax && 0 <= j < CMax && !(l <= i && c <= j < ce) ==> grid[i, j] == old(grid[i, j])
      ensures LabelShown(l, Layout(store.objs, rank, lb, n, c).cbar, Label(lb, store.objs[n]))
      decreases rank[n], 1
    {
      ghost var g := store.objs;
      var o := store.objs[n];
      var s := Label(lb, o);
      var (w, h) := GraphBox(s);
      var cbar := c;
      ce := c + w;
      cm := c + w / 2;
      SymbolDrawable(g, rank, lb, n, c, l);
      assert h == 1;
      var che := LayKids(store, n, c, l + h + Eps, rank);
      SymbolLayout(g, rank, lb, n, c, che);
      if w < che - c {
        cbar := cbar + (che - c - w) / 2;
        ce := che;
        cm := (c + che) / 2;
      }
      assert Place(ce, cm, cbar) == Layout(g, rank, lb, n, c);
      BoxAndArrows(store, n, s, c, l, cbar, cm, ce, rank);
    }

    /** The end of `exNode` for a symbol laid out at `Place(ce, cm, cbar)`: its box, and its
      * children drawn again with their arrows. Only the rows from `l` down between columns `c`
      * and `ce` change, and the label ends up on row `l`. */
    method BoxAndArrows(store: NodeStore, n: NodeId, s: string, c: int, l: int, cbar: int, cm: int, ce: int,
                        ghost rank: map<NodeId, nat>)
      requires Valid() && Ranked(store.objs, rank) && n in store.objs && n in rank
      requires Drawable(store.objs, rank, lb, n, c, l) && !Leaf(store.objs[n]) && s == Label(lb, store.objs[n])
      requires Place(ce, cm, cbar) == Layout(store.objs, rank, lb, n, c)
      modifies grid, this`out
      ensures out == old(out)
      ensures forall i, j :: 0 <= i < LMax && 0 <= j < CMax && !(l <= i && c <= j < ce) ==> grid[i, j] == old(grid[i, j])
      ensures LabelShown(l, cbar, s)
      decreases rank[n], 0, 1
    {
      GraphDrawBox(s, cbar, l);
      DrawKids(store, n, c, l, cm, ce, rank);
    }

    /** `exNode`'s first loop over the children of `n`: each is drawn on row `row` from the end
      * column of the one before, the first from `c`; a null child is skipped and leaves the
      * end column as it was. The result is the last end column. */
    method LayKids(store: NodeStore, n: NodeId, c: int, row: int, ghost rank: map<NodeId, nat>) returns (che: int)
      requires Valid() && Ranked(store.objs, rank) && n in store.objs && n in rank
      requires store.objs[n].body.Symbol? && |store.objs[n].body.children| > 0
      requires KidsDrawable(store.objs, rank, lb, n, 0, c, row)
      modifies grid, this`out
      ensures out == old(out)
      ensures che == KidStart(store.objs, rank, lb, n, |store.objs[n].body.children|, c)
      ensures forall i, j :: 0 <= i < LMax && 0 <= j < CMax && !(row <= i && c <= j < che) ==> grid[i, j] == old(grid[i, j])
      decreases rank[n], 0
    {
      ghost var g := store.objs;
      var cs := store.objs[n].body.children;
      var start := c;
      che := c;
      for k := 0 to |cs|
        invariant out == old(out)
        invariant start == KidStart(g, rank, lb, n, k, c) && (k > 0 ==> che == start)
        invariant KidsDrawable(g, rank, lb, n, k, c, row)
        invariant forall i, j :: 0 <= i < LMax && 0 <= j < CMax && !(row <= i && c <= j < start) ==> grid[i, j] == old(grid[i, j])
      {
        KidStep(g, rank, lb, n, k, c, row);
        if cs[k].Some? {
          var chm;
          che, chm := ExNode(store, cs[k].value, start, row, rank);
        }
        start := che;
      }
    }

    /** `exNode`'s second loop over the children of `n`, whose box is on row `l` with middle
      * column `cm` and end column `ce`: each child is drawn again, and an arrow goes from
      * `(l + 1, cm)` down to the child's middle column two rows further. For a null child
      * `exNode` returns at once, so the arrow to the child before it is drawn again, which
      * changes no cell. Only the rows below row `l` between columns `c` and `ce` change. */
    method DrawKids(store: NodeStore, n: NodeId, c: int, l: int, cm: int, ce: int, ghost rank: map<NodeId, nat>)
      requires Valid() && Ranked(store.objs, rank) && n in store.objs && n in rank
      requires store.objs[n].body.Symbol? && 0 <= c && 0 <= l
      requires KidsDrawable(store.objs, rank, lb, n, 0, c, l + 1 + Eps)
      requires c <= cm < ce <= CMax && KidStart(store.objs, rank, lb, n, |store.objs[n].body.children|, c) <= ce
      modifies grid, this`out
      ensures out == old(out)
      ensures forall i, j :: 0 <= i < LMax && 0 <= j < CMax && !(l + 1 <= i && c <= j < ce) ==> grid[i, j] == old(grid[i, j])
      decreases rank[n], 0, 0, 2
    {
      ghost var g := store.objs;
      var cs := store.objs[n].body.children;
      var start, che, chm := c, c, cm;
      for k := 0 to |cs|
        invariant out == old(out)
        invariant Turned(g, rank, n, k, c, l, cm, ce, start, chm)
        invariant forall i, j :: 0 <= i < LMax && 0 <= j < CMax && !(l + 1 <= i && c <= j < ce) ==> grid[i, j] == old(grid[i, j])
      {
        che, chm := DrawKidTurn(store, n, k, start, chm, c, l, cm, ce, rank);
        start := che;
      }
    }

    /** The label `s` is on row `l` of the grid from column `col + Del`. */
    ghost predicate LabelShown(l: int, col: int, s: string)
      reads grid
    {
      0 <= l < grid.Length0 && 0 <= col && col + Del + |s| <= grid.Length1
      && forall k :: 0 <= k < |s| ==> grid[l, col + Del + k] == s[k]
    }

    /** The arrow from `(l1, c1)` to `(l2, c2)` is on the grid. */
    ghost predicate ArrowShown(c1: int, l1: int, c2: int, l2: int)
      requires Valid()
      reads grid
    {
      forall i, j :: 0 <= i < LMax && 0 <= j < CMax && ArrowAt(c1, l1, c2, l2, i, j).Some? ==>
        grid[i, j] == ArrowAt(c1, l1, c2, l2, i, j).value
    }

    /** The state after `k` turns of `exNode`'s second child loop over `n`: the next child
      * starts at `start`, the rest are drawable, and once a turn is done the arrow to the last
      * middle column `chm` is on the grid. */
    ghost predicate Turned(g: Graph, rank: map<NodeId, nat>, n: NodeId, k: nat, c: int, l: int, cm: int, ce: int,
                           start: int, chm: int)
      requires Valid() && Ranked(g, rank) && n in g && n in rank && g[n].body.Symbol?
      reads grid
    {
      k <= |g[n].body.children| && start == KidStart(g, rank, lb, n, k, c) && KidsDrawable(g, rank, lb, n, k, c, l + 1 + Eps)
      && (k > 0 ==> c <= chm < ce && l + 1 + Eps < LMax && ArrowShown(cm, l + 1, chm, l + Eps))
    }

    /** One turn of `exNode`'s second child loop: child `k`, when not null, is drawn from
      * `start` with its arrow; a null child leaves `che` and `chm` as they were, so the arrow to
      * the previous child is drawn again. */
    method DrawKidTurn(store: NodeStore, n: NodeId, k: nat, start: int, chm0: int, c: int, l: int, cm: int, ce: int,
                       ghost rank: map<NodeId, nat>) returns (che: int, chm: int)
      requires Valid() && Ranked(store.objs, rank) && n in store.objs && n in rank
      requires store.objs[n].body.Symbol? && 0 <= c && 0 <= l && k < |store.objs[n].body.children|
      requires c <= cm < ce <= CMax && KidStart(store.objs, rank, lb, n, |store.objs[n].body.children|, c) <= ce
      requires Turned(store.objs, rank, n, k, c, l, cm, ce, start, chm0)
      modifies grid, this`out
      ensures out == old(out)
      ensures Turned(store.objs, rank, n, k + 1, c, l, cm, ce, che, chm)
      ensures forall i, j :: 0 <= i < LMax && 0 <= j < CMax && !(l + 1 <= i && c <= j < ce) ==> grid[i, j] == old(grid[i, j])
      decreases rank[n], 0, 0, 1
    {
      ghost var g := store.objs;
      var x := store.objs[n].body.children[k];
      KidStep(g, rank, lb, n, k, c, l + 1 + Eps);
      KidStartMonotone(g, rank, lb, n, k + 1, |g[n].body.children|, c);
      if x.Some? {
        che, chm := DrawKid(store, x.value, start, l, c, cm, ce, rank);
      } else {
        assert k > 0;
        RedrawArrow(cm, l + 1, chm0, l + Eps);
        che, chm := start, chm0;
      }
    }

    /** `graphDrawArrow` once more for an arrow already on the grid, as after a null child:
      * every cell keeps its character. */
    method RedrawArrow(c1: int, l1: int, c2: int, l2: int)
      requires Valid() && 0 <= l1 < LMax && 0 <= c1 < CMax && 0 <= l2 < LMax && 0 <= c2 < CMax
      requires ArrowShown(c1, l1, c2, l2)
      modifies grid, this`out
      ensures out == old(out)
      ensures forall i, j :: 0 <= i < LMax && 0 <= j < CMax ==> grid[i, j] == old(grid[i, j])
    {
      GraphDrawArrow(c1, l1, c2, l2);
    }

    /** One turn of `exNode`'s second loop: the child subtree at column `c`, row `l + 1 + Eps`,
      * and the arrow from the parent's middle column `cm` down to the child's, whose cells it
      * leaves on top; nothing left of column `left`, right of column `ce` or above row `l + 1`
      * changes. */
    method DrawKid(store: NodeStore, x: NodeId, c: int, l: int, left: int, cm: int, ce: int, ghost rank: map<NodeId, nat>) returns (che: int, chm: int)
      requires Valid() && Ranked(store.objs, rank) && x in store.objs && x in rank && 0 <= l
      requires Drawable(store.objs, rank, lb, x, c, l + 1 + Eps)
      requires 0 <= left <= c && left <= cm < ce <= CMax && Layout(store.objs, rank, lb, x, c).ce <= ce
      modifies grid, this`out
      ensures out == old(out)
      ensures che == Layout(store.objs, rank, lb, x, c).ce && chm == Layout(store.objs, rank, lb, x, c).cm
      ensures l + 1 + Eps < LMax
      ensures ArrowShown(cm, l + 1, chm, l + Eps)
      ensures forall i, j :: 0 <= i < LMax && 0 <= j < CMax && !(l + 1 <= i && left <= j < ce) ==> grid[i, j] == old(grid[i, j])
      decreases rank[x], 3
    {
      che, chm := ExNode(store, x, c, l + 1 + Eps, rank);
      label mid:
      GraphDrawArrow(cm, l + 1, chm, l + 1 + Eps - 1);
      forall i, j | 0 <= i < LMax && 0 <= j < CMax && !(l + 1 <= i && left <= j < ce)
        ensures grid[i, j] == old(grid[i, j])
      {
        assert ArrowAt(cm, l + 1, chm, l + 1 + Eps - 1, i, j).None?;
        assert grid[i, j] == old@mid(grid[i, j]);
      }
    }
  }
}
