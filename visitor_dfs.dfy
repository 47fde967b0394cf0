/** The older depth-first visitor of `libxl/src/XLangVisitorDFS.cpp`. Its traversal state is a
  * stack of plain integer cursors, one per symbol being walked, where `-1` marks a frame whose
  * children are exhausted (or whose walk was aborted). Its own `visit` overloads print the
  * terminals the way `Visitor`'s defaults do and print nothing for a symbol, so a whole walk
  * writes the terminals of the subtree from left to right. */
module XLangVisitorDFS {
  import opened Wrappers
  import opened XLangNode
  import opened XLangPrinter
  import XLangString

  type Filter = Option<NodeId> -> bool

  /** What a walk of slot `x` prints: `NULL` for a null slot when null visits are allowed,
    * the terminal rendering for a terminal, and the text of every child in order for a
    * symbol. */
  ghost function Text(g: Graph, rank: map<NodeId, nat>, sh: Show, allowNull: bool, x: Option<NodeId>): string
    requires Ranked(g, rank) && SlotIn(g, rank, x)
    decreases Rk(rank, x), 1, 0
  {
    if x.None? then (if allowNull then "NULL" else "")
    else match g[x.value].body
      case Term(v) => TermText(sh, v)
      case Symbol(cs) => KidsText(g, rank, sh, allowNull, x.value, |cs|)
  }

  /** What the walks of the first `k` children of `n` print together. */
  ghost function KidsText(g: Graph, rank: map<NodeId, nat>, sh: Show, allowNull: bool, n: NodeId, k: nat): string
    requires Ranked(g, rank) && IsSymbolIn(g, n) && n in rank && k <= |ChildrenOf(g, n)|
    decreases Rk(rank, Some(n)), 0, k
  {
    if k == 0 then ""
    else
      var c := ChildrenOf(g, n)[k - 1];
      assert c in ChildrenOf(g, n);
      KidsText(g, rank, sh, allowNull, n, k - 1) + Text(g, rank, sh, allowNull, c)
  }

  /** A slot of `n` is in the arena and ranked below `n`. */
  lemma KidIn(g: Graph, rank: map<NodeId, nat>, n: NodeId, i: nat)
    requires Ranked(g, rank) && IsSymbolIn(g, n) && n in rank && i < |ChildrenOf(g, n)|
    ensures SlotIn(g, rank, ChildrenOf(g, n)[i])
    ensures ChildrenOf(g, n)[i].Some? ==> rank[ChildrenOf(g, n)[i].value] < rank[n]
  {
    assert ChildrenOf(g, n)[i] in ChildrenOf(g, n);
  }

  /** The last cursor of a non-empty stack (`m_visit_state.top()`). */
  function Top(st: seq<int>): int
    requires |st| > 0
  {
    st[|st| - 1]
  }

  /** The stack with its top cursor replaced by `v` (`m_visit_state.top() = v`). */
  function SetTop(st: seq<int>, v: int): (r: seq<int>)
    requires |st| > 0
    ensures |r| == |st| && Top(r) == v && r[..|r| - 1] == st[..|st| - 1]
  {
    st[..|st| - 1] + [v]
  }

  /** `m_visit_state.pop()` on a non-empty stack. */
  function Popped(st: seq<int>): (r: seq<int>)
    requires |st| > 0
    ensures |r| == |st| - 1 && r + [Top(st)] == st
  {
    st[..|st| - 1]
  }

  /** One more child's text. */
  lemma KidsTextStep(g: Graph, rank: map<NodeId, nat>, sh: Show, allowNull: bool, n: NodeId, k: nat)
    requires Ranked(g, rank) && IsSymbolIn(g, n) && n in rank && k < |ChildrenOf(g, n)|
    ensures SlotIn(g, rank, ChildrenOf(g, n)[k])
    ensures KidsText(g, rank, sh, allowNull, n, k + 1)
      == KidsText(g, rank, sh, allowNull, n, k) + Text(g, rank, sh, allowNull, ChildrenOf(g, n)[k])
  {
    KidIn(g, rank, n, k);
  }

  /** The top of a stack that has `v` pushed on `base`, and what replacing it gives. */
  lemma PushedTop(base: seq<int>, v: int, w: int)
    ensures Top(base + [v]) == v && SetTop(base + [v], w) == base + [w] && Popped(base + [v]) == base
  {
    assert (base + [v])[..|base|] == base;
  }

  /** On a subtree without null slots, whether null visits are allowed makes no difference. */
  lemma {:induction false} NullFreeText(g: Graph, rank: map<NodeId, nat>, sh: Show, x: NodeId)
    requires Ranked(g, rank) && x in g && x in rank && NullFree(g, rank, x)
    ensures Text(g, rank, sh, true, Some(x)) == Text(g, rank, sh, false, Some(x))
    decreases rank[x], 1, 0
  {
    if g[x].body.Symbol? {
      NullFreeKidsText(g, rank, sh, x, |g[x].body.children|);
    }
  }

  lemma {:induction false} NullFreeKidsText(g: Graph, rank: map<NodeId, nat>, sh: Show, n: NodeId, k: nat)
    requires Ranked(g, rank) && IsSymbolIn(g, n) && n in rank && NullFree(g, rank, n) && k <= |ChildrenOf(g, n)|
    ensures KidsText(g, rank, sh, true, n, k) == KidsText(g, rank, sh, false, n, k)
    decreases rank[n], 0, k
  {
    if k > 0 {
      KidIn(g, rank, n, k - 1);
      NullFreeKidsText(g, rank, sh, n, k - 1);
      NullFreeText(g, rank, sh, ChildrenOf(g, n)[k - 1].value);
    }
  }

  /** Without null visits, a walk of a subtree whose slots are all null prints nothing. */
  lemma {:induction false} NullKidsSilent(g: Graph, rank: map<NodeId, nat>, sh: Show, n: NodeId, k: nat)
    requires Ranked(g, rank) && IsSymbolIn(g, n) && n in rank && k <= |ChildrenOf(g, n)|
    requires forall i :: 0 <= i < k ==> ChildrenOf(g, n)[i].None?
    ensures KidsText(g, rank, sh, false, n, k) == ""
    ensures KidsText(g, rank, sh, true, n, k) == Repeat("NULL", k)
    decreases k
  {
    if k > 0 {
      NullKidsSilent(g, rank, sh, n, k - 1);
      RepeatSnoc("NULL", k - 1);
    }
  }

  /** `k` copies of `s`. */
  function Repeat(s: string, k: nat): (r: string)
    ensures |r| == k * |s|
  {
    if k == 0 then "" else s + Repeat(s, k - 1)
  }

  lemma {:induction false} RepeatSnoc(s: string, k: nat)
    ensures Repeat(s, k) + s == Repeat(s, k + 1)
  {
    if k > 0 {
      RepeatSnoc(s, k - 1);
      assert Repeat(s, k) + s == s + (Repeat(s, k - 1) + s);
    }
  }

  class VisitorDFS {
    /** The tree being walked. */
    const store: NodeStore
    /** The text of the terminals. */
    const sh: Show
    /** `m_filter_cb`, when set. */
    var filter: Option<Filter>
    /** `m_allow_visit_null` */
    var allowNull: bool
    /** `m_visit_state`: one cursor per symbol being walked, the innermost last. */
    var stack: seq<int>
    /** `std::cout` */
    var out: string

    /** `VisitorDFS()`: null visits allowed, no filter, no state and nothing written yet. */
    constructor(store: NodeStore, sh: Show)
      ensures this.store == store && this.sh == sh && filter.None? && allowNull
      ensures stack == [] && out == ""
    {
      this.store := store;
      this.sh := sh;
      filter := None;
      allowNull := true;
      stack := [];
      out := "";
    }

    /** `set_allow_visit_null(allow_visit_null)` */
    method SetAllowVisitNull(allow: bool)
      modifies this`allowNull
      ensures allowNull == allow
    {
      allowNull := allow;
    }

    /** `set_filter_cb(filter_cb)`; a null callback is `None`. */
    method SetFilterCb(f: Option<Filter>)
      modifies this`filter
      ensures filter == f
    {
      filter := f;
    }

    /** Every cursor is a position or the exhausted mark `-1`. */
    predicate Cursors()
      reads this
    {
      forall i :: 0 <= i < |stack| ==> stack[i] >= -1
    }

    /** What a walk needs: a ranked arena, cursors no lower than `-1`, and a filter that never
      * accepts a null slot (the filtered loop would dereference it). */
    ghost predicate Ready(rank: map<NodeId, nat>)
      reads this, store
    {
      Ranked(store.objs, rank) && Cursors() && (filter.Some? ==> !filter.value(None))
    }

    /** `get_next_child_index(node)`: `-1` on an empty stack or an exhausted frame; the cursor,
      * which then moves on, while it is below the child count; otherwise the frame is marked
      * exhausted and `-1` returned. */
    method GetNextChildIndex(n: NodeId) returns (index: int)
      requires IsSymbolIn(store.objs, n) && Cursors()
      modifies this`stack
      ensures Cursors()
      ensures |old(stack)| == 0 || Top(old(stack)) == -1 ==> index == -1 && stack == old(stack)
      ensures |old(stack)| > 0 && 0 <= Top(old(stack)) < |ChildrenOf(store.objs, n)| ==>
        index == Top(old(stack)) && stack == SetTop(old(stack), index + 1)
      ensures |old(stack)| > 0 && Top(old(stack)) >= |ChildrenOf(store.objs, n)| ==>
        index == -1 && stack == SetTop(old(stack), -1)
    {
      if |stack| == 0 || Top(stack) == -1 {
        return -1;
      }
      var top := Top(stack);
      if top < |store.objs[n].body.children| {
        stack := SetTop(stack, top + 1);
        return top;
      }
      stack := SetTop(stack, -1);
      return -1;
    }

    /** `abort_visitation(node)`: marks the innermost frame exhausted; nothing on an empty
      * stack. */
    method AbortVisitation()
      requires Cursors()
      modifies this`stack
      ensures Cursors()
      ensures stack == if |old(stack)| == 0 then old(stack) else SetTop(old(stack), -1)
    {
      if |stack| > 0 {
        stack := SetTop(stack, -1);
      }
    }

    /** `get_next_child(node)`: the child at the cursor, the frame marked exhausted once the
      * last child has been handed out; null when there is no next child. */
    method GetNextChild(n: NodeId) returns (child: Option<NodeId>)
      requires IsSymbolIn(store.objs, n) && Cursors()
      modifies this`stack
      ensures Cursors()
      ensures |old(stack)| == 0 || Top(old(stack)) == -1 ==> child.None? && stack == old(stack)
      ensures |old(stack)| > 0 && 0 <= Top(old(stack)) < |ChildrenOf(store.objs, n)| ==>
        var k := Top(old(stack));
        child == ChildrenOf(store.objs, n)[k]
        && stack == SetTop(old(stack), if k + 1 < |ChildrenOf(store.objs, n)| then k + 1 else -1)
      ensures |old(stack)| > 0 && Top(old(stack)) >= |ChildrenOf(store.objs, n)| ==>
        child.None? && stack == SetTop(old(stack), -1)
    {
      var index := GetNextChildIndex(n);
      if index == -1 {
        return None;
      }
      child := store.objs[n].body.children[index];
      if index == |store.objs[n].body.children| - 1 {
        AbortVisitation();
      }
    }

    /** `visit_next_child(node, &ref)`: when there is a next child it is written to `ref` and
      * dispatched, and the result says whether another child follows; the frame is marked
      * exhausted after the last. Otherwise `ref` keeps its value `prev` and nothing is
      * printed. */
    method VisitNextChild(n: NodeId, prev: Option<NodeId>, ghost rank: map<NodeId, nat>) returns (ok: bool, ref: Option<NodeId>)
      requires Ready(rank) && IsSymbolIn(store.objs, n) && n in rank
      modifies this`stack, this`out
      ensures Cursors()
      ensures |old(stack)| == 0 || Top(old(stack)) == -1 ==>
        !ok && ref == prev && stack == old(stack) && out == old(out)
      ensures |old(stack)| > 0 && 0 <= Top(old(stack)) < |ChildrenOf(store.objs, n)| ==>
        var k := Top(old(stack));
        ref == ChildrenOf(store.objs, n)[k]
        && ok == (k + 1 < |ChildrenOf(store.objs, n)|)
        && stack == SetTop(old(stack), if ok then k + 1 else -1)
        && out == old(out) + Text(store.objs, rank, sh, allowNull, ref)
      ensures |old(stack)| > 0 && Top(old(stack)) >= |ChildrenOf(store.objs, n)| ==>
        !ok && ref == prev && stack == SetTop(old(stack), -1) && out == old(out)
      decreases rank[n] + 1, 0, 0
    {
      ref := prev;
      var index := GetNextChildIndex(n);
      if index == -1 {
        ok := false;
        return;
      }
      KidIn(store.objs, rank, n, index);
      ref := store.objs[n].body.children[index];
      Dispatch(ref, rank);
      if index == |store.objs[n].body.children| - 1 {
        AbortVisitation();
        ok := false;
        return;
      }
      ok := true;
    }

    /** `dispatch_visit(x)`: `visit_null` for a null slot when null visits are allowed,
      * otherwise the `visit` overload of the node's kind. */
    method Dispatch(x: Option<NodeId>, ghost rank: map<NodeId, nat>)
      requires Ready(rank) && SlotIn(store.objs, rank, x)
      modifies this`stack, this`out
      ensures stack == old(stack)
      ensures out == old(out) + Text(store.objs, rank, sh, allowNull, x)
      decreases Rk(rank, x), 3, 0
    {
      if x.None? {
        if allowNull {
          VisitNull();
        }
        return;
      }
      match store.objs[x.value].body {
        case Term(v) => VisitTerm(v);
        case Symbol(_) => Visit(x.value, rank);
      }
    }

    /** `visit_null` */
    method VisitNull()
      modifies this`out
      ensures out == old(out) + "NULL"
    {
      out := out + "NULL";
    }

    /** The `visit` overloads of the five terminal kinds. */
    method VisitTerm(v: Value)
      modifies this`out
      ensures out == old(out) + TermText(sh, v)
    {
      match v {
        case IntV(i) => out := out + sh.intText(i);
        case FloatV(b) => out := out + sh.floatText(b);
        case StringV(p) => out := out + "\"" + XLangString.Escaped(p.text) + "\"";
        case CharV(c) => out := out + "'" + XLangString.EscapeChar(c) + "'";
        case IdentV(p) => out := out + p.text;
      }
    }

    /** `visit(symbol)`: a frame is pushed, the children are walked, the frame is popped, with
      * or without a filter. The walk prints the text of every child in order and leaves the
      * stack as it found it. */
    method Visit(n: NodeId, ghost rank: map<NodeId, nat>)
      requires Ready(rank) && IsSymbolIn(store.objs, n) && n in rank
      modifies this`stack, this`out
      ensures stack == old(stack)
      ensures out == old(out) + Text(store.objs, rank, sh, allowNull, Some(n))
      decreases rank[n] + 1, 2, 0
    {
      if filter.Some? {
        FilteredVisit(n, rank);
      } else {
        PlainVisit(n, rank);
      }
    }

    /** The unfiltered branch: `while(visit_next_child(node));` on a fresh frame. The call
      * succeeds for every child but the last, so a symbol with `k > 0` children takes `k`
      * calls and one with none takes one. */
    method PlainVisit(n: NodeId, ghost rank: map<NodeId, nat>)
      requires Ready(rank) && IsSymbolIn(store.objs, n) && n in rank
      modifies this`stack, this`out
      ensures stack == old(stack)
      ensures out == old(out) + KidsText(store.objs, rank, sh, allowNull, n, |ChildrenOf(store.objs, n)|)
      decreases rank[n] + 1, 1, 0
    {
      ghost var g, an := store.objs, allowNull;
      ghost var size := |ChildrenOf(g, n)|;
      stack := stack + [0];
      var ok, ref := true, None;
      ghost var done: nat := 0;
      while ok
        invariant Ready(rank) && stack == old(stack) + [if ok then done else -1]
        invariant if ok then done < size || done == 0 else done == size
        invariant out == old(out) + KidsText(g, rank, sh, an, n, done)
        decreases size - done, ok
      {
        ok, ref := SweepTurn(n, old(stack), done, ref, old(out), rank);
        done := if done < size then done + 1 else done;
      }
      PushedTop(old(stack), -1, -1);
      stack := Popped(stack);
    }

    /** `visit_next_child(node)` on the innermost frame, at cursor `i` over `base`: child `i`
      * is dispatched, and the call succeeds unless it was the last (or there was none). */
    method SweepStep(n: NodeId, ghost base: seq<int>, ghost i: int, prev: Option<NodeId>, ghost rank: map<NodeId, nat>)
        returns (ok: bool, ref: Option<NodeId>)
      requires Ready(rank) && IsSymbolIn(store.objs, n) && n in rank
      requires stack == base + [i] && 0 <= i && (i < |ChildrenOf(store.objs, n)| || i == 0)
      modifies this`stack, this`out
      ensures Ready(rank)
      ensures ok == (i + 1 < |ChildrenOf(store.objs, n)|)
      ensures stack == base + [if ok then i + 1 else -1]
      ensures i < |ChildrenOf(store.objs, n)| ==>
        SlotIn(store.objs, rank, ChildrenOf(store.objs, n)[i])
        && out == old(out) + Text(store.objs, rank, sh, allowNull, ChildrenOf(store.objs, n)[i])
      ensures i >= |ChildrenOf(store.objs, n)| ==> out == old(out)
      decreases rank[n] + 1, 0, 1
    {
      PushedTop(base, i, i + 1);
      PushedTop(base, i, -1);
      ok, ref := VisitNextChild(n, prev, rank);
    }

    /** One turn of the unfiltered loop at cursor `i`: the text printed since `out0` grows from
      * the first `i` children's to the first `i + 1` children's (it stays empty for a symbol
      * without children). */
    method SweepTurn(n: NodeId, ghost base: seq<int>, ghost i: nat, prev: Option<NodeId>, ghost out0: string,
                     ghost rank: map<NodeId, nat>)
        returns (ok: bool, ref: Option<NodeId>)
      requires Ready(rank) && IsSymbolIn(store.objs, n) && n in rank
      requires stack == base + [i] && (i < |ChildrenOf(store.objs, n)| || i == 0)
      requires out == out0 + KidsText(store.objs, rank, sh, allowNull, n, i)
      modifies this`stack, this`out
      ensures Ready(rank)
      ensures ok == (i + 1 < |ChildrenOf(store.objs, n)|)
      ensures stack == base + [if ok then i + 1 else -1]
      ensures out == out0 + KidsText(store.objs, rank, sh, allowNull, n, if i < |ChildrenOf(store.objs, n)| then i + 1 else i)
      decreases rank[n] + 1, 0, 2
    {
      ghost var g, an := store.objs, allowNull;
      ok, ref := SweepStep(n, base, i, prev, rank);
      if i < |ChildrenOf(g, n)| {
        KidsTextStep(g, rank, sh, an, n, i);
        Assoc(out0, KidsText(g, rank, sh, an, n, i), Text(g, rank, sh, an, ChildrenOf(g, n)[i]));
      }
    }

    /** The filtered branch: the cursor is read until it runs out; a child symbol the filter
      * accepts is walked by `visit` directly, on a frame of its own pushed around the call,
      * and any other child is dispatched. */
    method FilteredVisit(n: NodeId, ghost rank: map<NodeId, nat>)
      requires Ready(rank) && IsSymbolIn(store.objs, n) && n in rank && filter.Some?
      modifies this`stack, this`out
      ensures stack == old(stack)
      ensures out == old(out) + KidsText(store.objs, rank, sh, allowNull, n, |ChildrenOf(store.objs, n)|)
      decreases rank[n] + 1, 1, 0
    {
      ghost var size := |ChildrenOf(store.objs, n)|;
      stack := stack + [0];
      ghost var i := 0;
      while true
        invariant Ready(rank) && 0 <= i <= size && stack == old(stack) + [i]
        invariant out == old(out) + KidsText(store.objs, rank, sh, allowNull, n, i)
        decreases size - i
      {
        var more := FilteredStep(n, old(stack), i, old(out), rank);
        if !more {
          return;
        }
        i := i + 1;
      }
    }

    /** One turn of the filtered `do`-loop at cursor `i`: either the cursor runs out and the
      * frame is popped, or child `i` is walked or dispatched and the cursor moves on. */
    method FilteredStep(n: NodeId, ghost base: seq<int>, ghost i: int, ghost out0: string, ghost rank: map<NodeId, nat>)
        returns (more: bool)
      requires Ready(rank) && IsSymbolIn(store.objs, n) && n in rank && filter.Some?
      requires 0 <= i <= |ChildrenOf(store.objs, n)| && stack == base + [i]
      requires out == out0 + KidsText(store.objs, rank, sh, allowNull, n, i)
      modifies this`stack, this`out
      ensures Ready(rank)
      ensures more == (i < |ChildrenOf(store.objs, n)|)
      ensures stack == if more then base + [i + 1] else base
      ensures out == out0 + KidsText(store.objs, rank, sh, allowNull, n, if more then i + 1 else i)
      decreases rank[n] + 1, 0, 1
    {
      PushedTop(base, i, i + 1);
      PushedTop(base, i, -1);
      PushedTop(base, -1, -1);
      var index := GetNextChildIndex(n);
      if index == -1 {
        assert i == |ChildrenOf(store.objs, n)| && stack == base + [-1];
        stack := Popped(stack);
        return false;
      }
      assert index == i && stack == base + [i + 1];
      FilteredKid(n, index, out0, rank);
      return true;
    }

    /** The body of the filtered loop for child `k`, with the text so far. */
    method FilteredKid(n: NodeId, k: int, ghost out0: string, ghost rank: map<NodeId, nat>)
      requires Ready(rank) && IsSymbolIn(store.objs, n) && n in rank && filter.Some?
      requires 0 <= k < |ChildrenOf(store.objs, n)| && out == out0 + KidsText(store.objs, rank, sh, allowNull, n, k)
      modifies this`stack, this`out
      ensures Ready(rank) && stack == old(stack)
      ensures out == out0 + KidsText(store.objs, rank, sh, allowNull, n, k + 1)
      decreases rank[n] + 1, 0, 0, 1
    {
      KidsTextStep(store.objs, rank, sh, allowNull, n, k);
      FilteredChild(n, k, rank);
    }

    /** One turn of the filtered loop on child `k` of `n`. Walking an accepted child symbol
      * directly prints what dispatching it would. */
    method FilteredChild(n: NodeId, k: int, ghost rank: map<NodeId, nat>)
      requires Ready(rank) && IsSymbolIn(store.objs, n) && n in rank && filter.Some?
      requires 0 <= k < |ChildrenOf(store.objs, n)|
      modifies this`stack, this`out
      ensures stack == old(stack)
      ensures Ready(rank)
      ensures SlotIn(store.objs, rank, ChildrenOf(store.objs, n)[k])
      ensures out == old(out) + Text(store.objs, rank, sh, allowNull, ChildrenOf(store.objs, n)[k])
      decreases rank[n] + 1, 0, 0, 0
    {
      KidIn(store.objs, rank, n, k);
      var child := store.objs[n].body.children[k];
      if filter.value(child) && child.Some? && store.objs[child.value].body.Symbol? {
        stack := stack + [0];
        Visit(child.value, rank);
        PushedTop(old(stack), 0, 0);
        stack := Popped(stack);
      } else {
        Dispatch(child, rank);
      }
    }
  }
}
