/** The text the printers of `XLangPrinter.cpp` write and the default terminal renderings of
  * `XLangVisitor.h`. An output stream (`std::cout`) is a string the printers append to, and
  * `std::endl` appends a newline. Each printer's output for a whole subtree is given here as a
  * recursive reference definition; the traversal classes are proved to produce it. */
module XLangPrinter {
  import opened Wrappers
  import opened XLangNodeIFace
  import opened XLangTreeContext
  import opened XLangString
  import opened XLangNode

  /** What the printers take from outside the model: `id_to_name` (behind `name()`), `uid()`
    * (derived from the node's address), and `operator<<` on `long` and on `float`. */
  datatype Show = Show(name: nat -> string, uid: NodeId -> string, intText: int -> string, floatText: bv32 -> string)

  /** `std::string(depth*4, ' ')` */
  function Indent(depth: nat): (r: string)
    ensures |r| == 4 * depth
    ensures forall i :: 0 <= i < |r| ==> r[i] == ' '
  {
    if depth == 0 then "" else "    " + Indent(depth - 1)
  }

  /** `Visitor::visit` on a terminal: INT and FLOAT raw, STRING double-quoted and CHAR
    * single-quoted after `escape`, IDENT as its text. */
  function TermText(sh: Show, v: Value): string
  {
    match v
    case IntV(i) => sh.intText(i)
    case FloatV(b) => sh.floatText(b)
    case StringV(p) => "\"" + Escaped(p.text) + "\""
    case CharV(c) => "'" + EscapeChar(c) + "'"
    case IdentV(p) => p.text
  }

  /** `DotPrinter`'s label of a terminal: like `TermText` but without quotes. */
  function DotLabel(sh: Show, v: Value): string
  {
    match v
    case IntV(i) => sh.intText(i)
    case FloatV(b) => sh.floatText(b)
    case StringV(p) => Escaped(p.text)
    case CharV(c) => EscapeChar(c)
    case IdentV(p) => p.text
  }

  /** `XMLPrinter`'s `value=` of a terminal: STRING goes through `escape_xml`, the others are
    * written as `Visitor::visit` writes them. */
  function XmlValue(sh: Show, v: Value): string
  {
    match v
    case StringV(p) => "\"" + XmlEscaped(p.text) + "\""
    case _ => TermText(sh, v)
  }

  function LispOpen(name: string, d: nat): string { Indent(d) + "(" + name + "\n" }
  function LispClose(d: nat): string { Indent(d) + ")\n" }
  function LispTerm(sh: Show, v: Value, d: nat): string { Indent(d) + TermText(sh, v) + "\n" }
  function LispNull(d: nat): string { Indent(d) + "(NULL)\n" }

  function XmlOpen(name: string, d: nat): string { Indent(d) + "<symbol " + "type=\"" + name + "\">" + "\n" }
  function XmlClose(d: nat): string { Indent(d) + "</symbol>" + "\n" }
  function XmlTerm(sh: Show, name: string, v: Value, d: nat): string
  {
    Indent(d) + "<term " + "type=\"" + name + "\" value=" + XmlValue(sh, v) + "/>" + "\n"
  }
  function XmlNull(d: nat): string { Indent(d) + "<NULL/>" + "\n" }

  /** `DotPrinter::print_header` */
  function DotHeader(horizontal: bool): string
  {
    "digraph g {" + "\n" + (if horizontal then "\tgraph [rankdir = \"LR\"];" + "\n" else "")
  }

  /** `DotPrinter::print_footer` */
  function DotFooter(): string { "}" + "\n" }

  /** The node statement a DOT visit writes for node `uid`. */
  function DotNode(id: string, text: string, shape: string): string
  {
    "\t" + id + " [" + "\n" + "\t\tlabel=\"" + text + "\"," + "\n" + "\t\tshape=\"" + shape + "\"" + "\n" + "\t];" + "\n"
  }

  /** The edge statement from the parent `from` to `to`. */
  function DotEdge(from: string, to: string): string { "\t" + from + "->" + to + ";" + "\n" }

  function DotNull(): string { "/* NULL */" }

  /** The header names a left-to-right layout exactly when it is asked to. */
  lemma DotHeaderRankdir(horizontal: bool)
    ensures DotHeader(horizontal)[..12] == "digraph g {\n"
    ensures |DotHeader(horizontal)| > 12 <==> horizontal
  {
  }

  // ---------------------------------------------------------------------
  // Whole-subtree output
  // ---------------------------------------------------------------------

  /** A measure for recursion over possibly null slots of a ranked arena. */
  ghost function Rk(rank: map<NodeId, nat>, x: Option<NodeId>): nat
  {
    if x.Some? && x.value in rank then rank[x.value] + 1 else 0
  }

  ghost predicate SlotIn(g: Graph, rank: map<NodeId, nat>, x: Option<NodeId>)
  {
    x.Some? ==> x.value in g && x.value in rank
  }

  /** What a printer writes at each visit: before a symbol's children, after them, for a
    * terminal and for a null slot, each from the node, its object and the current depth; and
    * whether the depth grows by one for a symbol's children. */
  datatype Form = Form(
    opening: (NodeId, Object, nat) -> string,
    closing: (NodeId, Object, nat) -> string,
    terminal: (NodeId, Object, Value, nat) -> string,
    nullSlot: nat -> string,
    nested: bool)

  /** `LispPrinter` */
  function LispForm(sh: Show): Form
  {
    Form((n: NodeId, o: Object, d: nat) => LispOpen(sh.name(o.lexerId), d),
         (n: NodeId, o: Object, d: nat) => LispClose(d),
         (n: NodeId, o: Object, v: Value, d: nat) => LispTerm(sh, v, d),
         (d: nat) => LispNull(d), true)
  }

  /** `XMLPrinter` */
  function XmlForm(sh: Show): Form
  {
    Form((n: NodeId, o: Object, d: nat) => XmlOpen(sh.name(o.lexerId), d),
         (n: NodeId, o: Object, d: nat) => XmlClose(d),
         (n: NodeId, o: Object, v: Value, d: nat) => XmlTerm(sh, sh.name(o.lexerId), v, d),
         (d: nat) => XmlNull(d), true)
  }

  /** The uid of a node's parent, as the DOT edge statements print it. */
  function ParentUid(sh: Show, o: Object): string
  {
    if o.parent.Some? then sh.uid(o.parent.value) else ""
  }

  /** What a DOT visit of symbol `n` writes before its children: the `digraph` header when
    * `n` is a root and the wrapper is on, then the ellipse statement. */
  function DotSymbolOpen(sh: Show, horizontal: bool, block: bool, n: NodeId, o: Object): string
  {
    (if block && o.parent.None? then DotHeader(horizontal) else "")
    + DotNode(sh.uid(n), sh.name(o.lexerId), "ellipse")
  }

  /** What it writes after them: the edge from the parent when there is one, and the footer
    * when `n` is a root and the wrapper is on. */
  function DotSymbolClose(sh: Show, block: bool, n: NodeId, o: Object): string
  {
    (if o.parent.Some? then DotEdge(ParentUid(sh, o), sh.uid(n)) else "")
    + (if block && o.parent.None? then DotFooter() else "")
  }

  /** What a DOT visit of a terminal writes: a box, then the edge from its parent. */
  function DotTerm(sh: Show, n: NodeId, o: Object, v: Value): string
  {
    DotNode(sh.uid(n), DotLabel(sh, v), "box") + DotEdge(ParentUid(sh, o), sh.uid(n))
  }

  /** `DotPrinter(horizontal, print_digraph_block)`, which keeps no depth. */
  function DotForm(sh: Show, horizontal: bool, block: bool): Form
  {
    Form((n: NodeId, o: Object, d: nat) => DotSymbolOpen(sh, horizontal, block, n, o),
         (n: NodeId, o: Object, d: nat) => DotSymbolClose(sh, block, n, o),
         (n: NodeId, o: Object, v: Value, d: nat) => DotTerm(sh, n, o, v),
         (d: nat) => DotNull(), false)
  }

  /** What a printer of form `fm` writes for the slot `x` at depth `d`, without a filter and
    * with null visits allowed: a symbol's opening text, its children in order, its closing
    * text. */
  ghost function FormText(g: Graph, rank: map<NodeId, nat>, fm: Form, x: Option<NodeId>, d: nat): string
    requires Ranked(g, rank) && SlotIn(g, rank, x)
    decreases Rk(rank, x), 1, 0
  {
    if x.None? then fm.nullSlot(d)
    else
      var n := x.value;
      match g[n].body
      case Term(v) => fm.terminal(n, g[n], v, d)
      case Symbol(cs) => fm.opening(n, g[n], d) + FormKids(g, rank, fm, n, 0, if fm.nested then d + 1 else d) + fm.closing(n, g[n], d)
  }

  ghost function FormKids(g: Graph, rank: map<NodeId, nat>, fm: Form, n: NodeId, i: nat, d: nat): string
    requires Ranked(g, rank) && IsSymbolIn(g, n) && n in rank && i <= |ChildrenOf(g, n)|
    decreases rank[n] + 1, 0, |ChildrenOf(g, n)| - i
  {
    if i == |ChildrenOf(g, n)| then ""
    else FormText(g, rank, fm, ChildrenOf(g, n)[i], d) + FormKids(g, rank, fm, n, i + 1, d)
  }

  /** Every terminal reached from the slot `x` has a parent. The DOT printer writes the edge
    * from `parent()->uid()` after each terminal, so a parentless terminal there is a null
    * dereference. */
  ghost predicate TermsParented(g: Graph, rank: map<NodeId, nat>, x: Option<NodeId>)
    requires Ranked(g, rank) && SlotIn(g, rank, x)
    decreases Rk(rank, x), 1, 0
  {
    x.Some? ==>
      match g[x.value].body
      case Term(_) => g[x.value].parent.Some?
      case Symbol(_) => KidsParented(g, rank, x.value, 0)
  }

  ghost predicate KidsParented(g: Graph, rank: map<NodeId, nat>, n: NodeId, i: nat)
    requires Ranked(g, rank) && IsSymbolIn(g, n) && n in rank && i <= |ChildrenOf(g, n)|
    decreases rank[n] + 1, 0, |ChildrenOf(g, n)| - i
  {
    i == |ChildrenOf(g, n)| || (TermsParented(g, rank, ChildrenOf(g, n)[i]) && KidsParented(g, rank, n, i + 1))
  }

  /** In a consistent arena every child has its container as parent, so the DOT printer's
    * precondition holds for any slot except a parentless terminal. */
  lemma {:induction false} ConsistentTermsParented(g: Graph, rank: map<NodeId, nat>, x: Option<NodeId>)
    requires Ranked(g, rank) && SlotIn(g, rank, x) && Consistent(g)
    requires x.Some? && g[x.value].body.Term? ==> g[x.value].parent.Some?
    ensures TermsParented(g, rank, x)
    decreases Rk(rank, x), 1, 0
  {
    if x.Some? && g[x.value].body.Symbol? {
      ConsistentKidsParented(g, rank, x.value, 0);
    }
  }

  lemma {:induction false} ConsistentKidsParented(g: Graph, rank: map<NodeId, nat>, n: NodeId, i: nat)
    requires Ranked(g, rank) && IsSymbolIn(g, n) && n in rank && i <= |ChildrenOf(g, n)| && Consistent(g)
    ensures KidsParented(g, rank, n, i)
    decreases rank[n] + 1, 0, |ChildrenOf(g, n)| - i
  {
    if i < |ChildrenOf(g, n)| {
      var c := ChildrenOf(g, n)[i];
      if c.Some? {
        assert c in ChildrenOf(g, n);
        assert g[c.value].parent == Some(n);
      }
      ConsistentTermsParented(g, rank, c);
      ConsistentKidsParented(g, rank, n, i + 1);
    }
  }

  /** The DOT printer keeps no depth: its text is the same whatever depth it starts at. */
  lemma {:induction false} DotDepthFree(g: Graph, rank: map<NodeId, nat>, sh: Show, horizontal: bool, block: bool, x: Option<NodeId>, d: nat)
    requires Ranked(g, rank) && SlotIn(g, rank, x)
    ensures FormText(g, rank, DotForm(sh, horizontal, block), x, d) == FormText(g, rank, DotForm(sh, horizontal, block), x, 0)
    decreases Rk(rank, x), 1, 0
  {
    if x.Some? && g[x.value].body.Symbol? {
      DotKidsDepthFree(g, rank, sh, horizontal, block, x.value, 0, d);
    }
  }

  lemma {:induction false} DotKidsDepthFree(g: Graph, rank: map<NodeId, nat>, sh: Show, horizontal: bool, block: bool, n: NodeId, i: nat, d: nat)
    requires Ranked(g, rank) && IsSymbolIn(g, n) && n in rank && i <= |ChildrenOf(g, n)|
    ensures FormKids(g, rank, DotForm(sh, horizontal, block), n, i, d) == FormKids(g, rank, DotForm(sh, horizontal, block), n, i, 0)
    decreases rank[n] + 1, 0, |ChildrenOf(g, n)| - i
  {
    if i < |ChildrenOf(g, n)| {
      assert ChildrenOf(g, n)[i] in ChildrenOf(g, n);
      DotDepthFree(g, rank, sh, horizontal, block, ChildrenOf(g, n)[i], d);
      DotKidsDepthFree(g, rank, sh, horizontal, block, n, i + 1, d);
    }
  }

  /** The Lisp text of a subtree: `(name` and `)` lines around the children, four spaces of
    * indent per level, a line per terminal and `(NULL)` per null slot. */
  ghost function LispText(g: Graph, rank: map<NodeId, nat>, sh: Show, x: Option<NodeId>, d: nat): string
    requires Ranked(g, rank) && SlotIn(g, rank, x)
  {
    FormText(g, rank, LispForm(sh), x, d)
  }

  /** The XML text of a subtree: `<symbol type="name">` elements around the children and a
    * `<term .../>` element per terminal. */
  ghost function XmlText(g: Graph, rank: map<NodeId, nat>, sh: Show, x: Option<NodeId>, d: nat): string
    requires Ranked(g, rank) && SlotIn(g, rank, x)
  {
    FormText(g, rank, XmlForm(sh), x, d)
  }

  /** The DOT text of a subtree: the `digraph` wrapper around a root symbol when `block` is
    * set, an ellipse per symbol whose edge from the parent comes after its subtree, and a box
    * per terminal followed by its edge. */
  ghost function DotText(g: Graph, rank: map<NodeId, nat>, sh: Show, horizontal: bool, block: bool, x: Option<NodeId>): string
    requires Ranked(g, rank) && SlotIn(g, rank, x)
  {
    FormText(g, rank, DotForm(sh, horizontal, block), x, 0)
  }

  // ---------------------------------------------------------------------
  // Line structure of the Lisp output
  // ---------------------------------------------------------------------

  /** The number of newline characters in `s`. */
  function Lines(s: string): nat
  {
    if s == [] then 0 else (if s[0] == '\n' then 1 else 0) + Lines(s[1..])
  }

  lemma {:induction false} LinesAppend(a: string, b: string)
    ensures Lines(a + b) == Lines(a) + Lines(b)
  {
    if a != [] {
      assert (a + b)[1..] == a[1..] + b;
      LinesAppend(a[1..], b);
    } else {
      assert a + b == b;
    }
  }

  lemma {:induction false} LinesNone(s: string)
    requires '\n' !in s
    ensures Lines(s) == 0
  {
    if s != [] { LinesNone(s[1..]); }
  }

  /** A text without a newline, then a newline, is one line. */
  lemma OneLine(a: string)
    requires '\n' !in a
    ensures Lines(a + "\n") == 1
  {
    LinesAppend(a, "\n");
    LinesNone(a);
  }

  lemma {:induction false} EncodeAvoids(s: string, e: char -> string, x: char)
    requires forall c :: x !in e(c)
    ensures x !in Encode(s, e)
  {
    if s != [] { EncodeAvoids(s[1..], e, x); }
  }

  /** The renderings from outside hold no newline, and neither do the identifiers of `g`. */
  ghost predicate SingleLine(g: Graph, sh: Show)
  {
    (forall k :: '\n' !in sh.name(k))
    && (forall i :: '\n' !in sh.intText(i))
    && (forall b :: '\n' !in sh.floatText(b))
    && (forall k :: k in g && g[k].body.Term? && g[k].body.value.IdentV? ==> '\n' !in g[k].body.value.id.text)
  }

  /** A terminal's rendering is one line: `escape` turns a newline into a backslash pair. */
  lemma TermTextSingleLine(g: Graph, sh: Show, k: NodeId)
    requires SingleLine(g, sh) && k in g && g[k].body.Term?
    ensures '\n' !in TermText(sh, g[k].body.value)
  {
    match g[k].body.value
    case StringV(p) =>
      EncodeAvoids(p.text, EscapeChar, '\n');
    case IntV(i) =>
    case FloatV(b) =>
    case CharV(c) =>
    case IdentV(p) =>
  }

  /** The number of lines a subtree prints as: one per terminal and per null slot, two per
    * symbol (its opening and its closing line). */
  ghost function LineCount(g: Graph, rank: map<NodeId, nat>, x: Option<NodeId>): nat
    requires Ranked(g, rank) && SlotIn(g, rank, x)
    decreases Rk(rank, x), 1, 0
  {
    if x.None? then 1
    else match g[x.value].body
      case Term(_) => 1
      case Symbol(_) => 2 + LineCountKids(g, rank, x.value, 0)
  }

  ghost function LineCountKids(g: Graph, rank: map<NodeId, nat>, n: NodeId, i: nat): nat
    requires Ranked(g, rank) && IsSymbolIn(g, n) && n in rank && i <= |ChildrenOf(g, n)|
    decreases rank[n] + 1, 0, |ChildrenOf(g, n)| - i
  {
    if i == |ChildrenOf(g, n)| then 0
    else LineCount(g, rank, ChildrenOf(g, n)[i]) + LineCountKids(g, rank, n, i + 1)
  }

  /** The Lisp output of a subtree has exactly `LineCount` lines, whatever the depth. */
  lemma {:induction false} LispLines(g: Graph, rank: map<NodeId, nat>, sh: Show, x: Option<NodeId>, d: nat)
    requires Ranked(g, rank) && SlotIn(g, rank, x) && SingleLine(g, sh)
    ensures Lines(FormText(g, rank, LispForm(sh), x, d)) == LineCount(g, rank, x)
    decreases Rk(rank, x), 1, 0
  {
    if x.None? {
      OneLine(Indent(d) + "(NULL)");
      assert Indent(d) + "(NULL)" + "\n" == LispNull(d);
    } else {
      match g[x.value].body
      case Term(v) =>
        TermTextSingleLine(g, sh, x.value);
        OneLine(Indent(d) + TermText(sh, v));
      case Symbol(cs) =>
        LispSymbolLines(g, rank, sh, x.value, d);
    }
  }

  /** The symbol case of `LispLines`: an opening and a closing line around its children's. */
  lemma {:induction false} LispSymbolLines(g: Graph, rank: map<NodeId, nat>, sh: Show, n: NodeId, d: nat)
    requires Ranked(g, rank) && IsSymbolIn(g, n) && n in rank && SingleLine(g, sh)
    ensures Lines(FormText(g, rank, LispForm(sh), Some(n), d)) == LineCount(g, rank, Some(n))
    decreases rank[n] + 1, 0, |ChildrenOf(g, n)| + 1
  {
    var name := sh.name(g[n].lexerId);
    var kids := FormKids(g, rank, LispForm(sh), n, 0, d + 1);
    LispKidsLines(g, rank, sh, n, 0, d + 1);
    OneLine(Indent(d) + "(" + name);
    OneLine(Indent(d) + ")");
    assert Indent(d) + ")" + "\n" == LispClose(d);
    LinesAppend(LispOpen(name, d) + kids, LispClose(d));
    LinesAppend(LispOpen(name, d), kids);
    assert FormText(g, rank, LispForm(sh), Some(n), d) == LispOpen(name, d) + kids + LispClose(d);
  }

  lemma {:induction false} LispKidsLines(g: Graph, rank: map<NodeId, nat>, sh: Show, n: NodeId, i: nat, d: nat)
    requires Ranked(g, rank) && IsSymbolIn(g, n) && n in rank && i <= |ChildrenOf(g, n)| && SingleLine(g, sh)
    ensures Lines(FormKids(g, rank, LispForm(sh), n, i, d)) == LineCountKids(g, rank, n, i)
    decreases rank[n] + 1, 0, |ChildrenOf(g, n)| - i
  {
    if i < |ChildrenOf(g, n)| {
      LispLines(g, rank, sh, ChildrenOf(g, n)[i], d);
      LispKidsLines(g, rank, sh, n, i + 1, d);
      LinesAppend(FormText(g, rank, LispForm(sh), ChildrenOf(g, n)[i], d), FormKids(g, rank, LispForm(sh), n, i + 1, d));
    }
  }

  /** A symbol's Lisp output starts with its opening line at its own indent and ends with the
    * closing parenthesis at the same indent. */
  lemma LispSymbolFrame(g: Graph, rank: map<NodeId, nat>, sh: Show, n: NodeId, d: nat)
    requires Ranked(g, rank) && IsSymbolIn(g, n) && n in rank
    ensures var t := LispText(g, rank, sh, Some(n), d);
      |t| >= 4 * d + 3 && t[..4 * d + 1] == Indent(d) + "(" && t[|t| - 4 * d - 2..] == Indent(d) + ")\n"
  {
    var name := sh.name(g[n].lexerId);
    var t := LispText(g, rank, sh, Some(n), d);
    var mid := FormKids(g, rank, LispForm(sh), n, 0, d + 1);
    assert t == Indent(d) + "(" + (name + "\n" + mid) + Indent(d) + ")\n";
    assert t == (Indent(d) + "(") + (name + "\n" + mid + Indent(d) + ")\n");
    assert t == (Indent(d) + "(" + name + "\n" + mid) + (Indent(d) + ")\n");
  }

  /** With the wrapper switched on, a root symbol's DOT output is a complete `digraph` block. */
  lemma DotRootWrapped(g: Graph, rank: map<NodeId, nat>, sh: Show, horizontal: bool, n: NodeId)
    requires Ranked(g, rank) && IsSymbolIn(g, n) && n in rank && g[n].parent.None?
    ensures var t := DotText(g, rank, sh, horizontal, true, Some(n));
      DotHeader(horizontal) <= t && |t| >= 2 && t[|t| - 2..] == DotFooter()
  {
    var open := DotSymbolOpen(sh, horizontal, true, n, g[n]);
    var kids := FormKids(g, rank, DotForm(sh, horizontal, true), n, 0, 0);
    var close := DotSymbolClose(sh, true, n, g[n]);
    assert open == DotHeader(horizontal) + DotNode(sh.uid(n), sh.name(g[n].lexerId), "ellipse");
    assert close == "" + DotFooter();
    assert (open + kids + close)[|open + kids|..] == close;
  }

  /** Without the wrapper, or for a symbol that has a parent, no `digraph` header is written
    * and the output starts with the node statement. */
  lemma DotUnwrapped(g: Graph, rank: map<NodeId, nat>, sh: Show, horizontal: bool, block: bool, n: NodeId)
    requires Ranked(g, rank) && IsSymbolIn(g, n) && n in rank && (!block || g[n].parent.Some?)
    ensures DotNode(sh.uid(n), sh.name(g[n].lexerId), "ellipse") <= DotText(g, rank, sh, horizontal, block, Some(n))
  {
    var open := DotSymbolOpen(sh, horizontal, block, n, g[n]);
    assert open == "" + DotNode(sh.uid(n), sh.name(g[n].lexerId), "ellipse");
  }
}
