/** `VisitorBFS` (`XLangVisitor.h`, `XLangVisitor.cpp`) and its one concrete subclass
  * `TreeAnnotatorBFS` (`XLangPrinter.cpp`), which numbers the visited slots.
  *
  * The visitor keeps a stack of FIFO queues of (possibly null) node pointers. Which slots a
  * sweep visits is given by `Visits`, which follows `next_state` queue by queue; without a
  * filter it is proved to be level order. */
module XLangVisitorBFS {
  import opened Wrappers
  import opened XLangNode
  import opened XLangPrinter
  import opened XLangVisitor

  // ---------------------------------------------------------------------
  // Sizes, for termination
  // ---------------------------------------------------------------------

  /** Every slot of `q` names a ranked node of `g`. */
  ghost predicate SlotsIn(g: Graph, rank: map<NodeId, nat>, q: seq<Option<NodeId>>)
  {
    forall i :: 0 <= i < |q| ==> SlotIn(g, rank, q[i])
  }

  /** The number of slots of a subtree, the slot itself included. */
  ghost function Weight(g: Graph, rank: map<NodeId, nat>, x: Option<NodeId>): (r: nat)
    requires Ranked(g, rank) && SlotIn(g, rank, x)
    ensures r >= 1
    decreases Rk(rank, x), 1
  {
    if x.Some? && g[x.value].body.Symbol? then 1 + KidsWeight(g, rank, x.value, |ChildrenOf(g, x.value)|) else 1
  }

  ghost function KidsWeight(g: Graph, rank: map<NodeId, nat>, n: NodeId, i: nat): nat
    requires Ranked(g, rank) && IsSymbolIn(g, n) && n in rank && i <= |ChildrenOf(g, n)|
    decreases rank[n] + 1, 0, i
  {
    if i == 0 then 0
    else
      assert ChildrenOf(g, n)[i - 1] in ChildrenOf(g, n);
      KidsWeight(g, rank, n, i - 1) + Weight(g, rank, ChildrenOf(g, n)[i - 1])
  }

  /** The total weight of a queue. */
  ghost function QWeight(g: Graph, rank: map<NodeId, nat>, q: seq<Option<NodeId>>): nat
    requires Ranked(g, rank) && SlotsIn(g, rank, q)
  {
    if q == [] then 0 else QWeight(g, rank, q[..|q| - 1]) + Weight(g, rank, q[|q| - 1])
  }

  lemma {:induction false} QWeightAppend(g: Graph, rank: map<NodeId, nat>, a: seq<Option<NodeId>>, b: seq<Option<NodeId>>)
    requires Ranked(g, rank) && SlotsIn(g, rank, a) && SlotsIn(g, rank, b)
    ensures SlotsIn(g, rank, a + b)
    ensures QWeight(g, rank, a + b) == QWeight(g, rank, a) + QWeight(g, rank, b)
  {
    assert forall i :: 0 <= i < |a + b| ==> (a + b)[i] == (if i < |a| then a[i] else b[i - |a|]);
    if b == [] {
      assert a + b == a;
    } else {
      var b' := b[..|b| - 1];
      assert (a + b)[..|a + b| - 1] == a + b';
      QWeightAppend(g, rank, a, b');
    }
  }

  lemma {:induction false} QWeightKids(g: Graph, rank: map<NodeId, nat>, n: NodeId, i: nat)
    requires Ranked(g, rank) && IsSymbolIn(g, n) && n in rank && i <= |ChildrenOf(g, n)|
    ensures SlotsIn(g, rank, ChildrenOf(g, n)[..i])
    ensures QWeight(g, rank, ChildrenOf(g, n)[..i]) == KidsWeight(g, rank, n, i)
  {
    var cs := ChildrenOf(g, n);
    forall j | 0 <= j < i ensures SlotIn(g, rank, cs[..i][j]) {
      assert cs[j] in cs;
    }
    if i > 0 {
      QWeightKids(g, rank, n, i - 1);
      assert cs[..i][..i - 1] == cs[..i - 1];
    }
  }

  lemma QWeightOne(g: Graph, rank: map<NodeId, nat>, x: Option<NodeId>)
    requires Ranked(g, rank) && SlotIn(g, rank, x)
    ensures SlotsIn(g, rank, [x]) && QWeight(g, rank, [x]) == Weight(g, rank, x)
  {
    assert [x][..0] == [];
  }

  // ---------------------------------------------------------------------
  // One queue
  // ---------------------------------------------------------------------

  /** The slots `next_state` enqueues for the slot `x`: a symbol's children in index order,
    * nulls included; nothing for a terminal or a null slot. */
  ghost function Kids(g: Graph, x: Option<NodeId>): seq<Option<NodeId>>
  {
    if x.Some? && x.value in g && g[x.value].body.Symbol? then ChildrenOf(g, x.value) else []
  }

  /** One turn of the `next_state` loop: the front's children are enqueued and the front is
    * dequeued. */
  ghost function Expand(g: Graph, q: seq<Option<NodeId>>): seq<Option<NodeId>>
    requires q != []
  {
    q[1..] + Kids(g, q[0])
  }

  lemma ExpandWeight(g: Graph, rank: map<NodeId, nat>, q: seq<Option<NodeId>>)
    requires Ranked(g, rank) && SlotsIn(g, rank, q) && q != []
    ensures SlotsIn(g, rank, Expand(g, q))
    ensures QWeight(g, rank, Expand(g, q)) == QWeight(g, rank, q) - 1
  {
    assert SlotIn(g, rank, q[0]);
    assert q == [q[0]] + q[1..];
    assert SlotsIn(g, rank, q[1..]) by {
      forall i | 0 <= i < |q[1..]| ensures SlotIn(g, rank, q[1..][i]) {
        assert q[1..][i] == q[i + 1];
      }
    }
    QWeightOne(g, rank, q[0]);
    QWeightAppend(g, rank, [q[0]], q[1..]);
    var ks := Kids(g, q[0]);
    if q[0].Some? && g[q[0].value].body.Symbol? {
      QWeightKids(g, rank, q[0].value, |ks|);
      assert ks[..|ks|] == ks;
    } else {
      assert ks == [];
      assert SlotsIn(g, rank, ks);
      assert QWeight(g, rank, ks) == 0;
    }
    QWeightAppend(g, rank, q[1..], ks);
  }

  /** Whether the `do ... while` loop of `next_state` goes on after dequeuing `x` and leaving
    * the queue `q`: a filter is set, it accepts `x`, and `q` is not empty. */
  predicate Continues(f: Option<Filter>, x: Option<NodeId>, q: seq<Option<NodeId>>)
  {
    f.Some? && f.value(x) && q != []
  }

  /** The queue `next_state` leaves behind from the non-empty queue `q`. Its first turn
    * dequeues the front, the slot just visited; while the filter accepts the slot just
    * dequeued, further slots are dequeued and expanded without being visited. */
  ghost function Skim(g: Graph, rank: map<NodeId, nat>, f: Option<Filter>, q: seq<Option<NodeId>>): (r: seq<Option<NodeId>>)
    requires Ranked(g, rank) && SlotsIn(g, rank, q) && q != []
    ensures SlotsIn(g, rank, r) && QWeight(g, rank, r) < QWeight(g, rank, q)
    decreases QWeight(g, rank, q)
  {
    ExpandWeight(g, rank, q);
    var q1 := Expand(g, q);
    if Continues(f, q[0], q1) then Skim(g, rank, f, q1) else q1
  }

  /** The slots a sweep of the queue `q` visits, in order. */
  ghost function Visits(g: Graph, rank: map<NodeId, nat>, f: Option<Filter>, q: seq<Option<NodeId>>): seq<Option<NodeId>>
    requires Ranked(g, rank) && SlotsIn(g, rank, q)
    decreases QWeight(g, rank, q)
  {
    if q == [] then [] else [q[0]] + Visits(g, rank, f, Skim(g, rank, f, q))
  }

  // ---------------------------------------------------------------------
  // Level order
  // ---------------------------------------------------------------------

  /** The slots one level below the queue `q`: the children of each of its slots in turn. */
  ghost function NextLevel(g: Graph, q: seq<Option<NodeId>>): seq<Option<NodeId>>
  {
    if q == [] then [] else Kids(g, q[0]) + NextLevel(g, q[1..])
  }

  lemma {:induction false} NextLevelWeight(g: Graph, rank: map<NodeId, nat>, q: seq<Option<NodeId>>)
    requires Ranked(g, rank) && SlotsIn(g, rank, q)
    ensures SlotsIn(g, rank, NextLevel(g, q))
    ensures QWeight(g, rank, NextLevel(g, q)) + |q| == QWeight(g, rank, q)
  {
    if q != [] {
      assert SlotsIn(g, rank, [q[0]] + q[1..]) by { assert [q[0]] + q[1..] == q; }
      assert SlotsIn(g, rank, q[1..]) by {
        forall i | 0 <= i < |q[1..]| ensures SlotIn(g, rank, q[1..][i]) {
          assert q[1..][i] == q[i + 1];
        }
      }
      NextLevelWeight(g, rank, q[1..]);
      ExpandWeight(g, rank, [q[0]]);
      assert Expand(g, [q[0]]) == Kids(g, q[0]);
      QWeightOne(g, rank, q[0]);
      QWeightAppend(g, rank, [q[0]], q[1..]);
      assert [q[0]] + q[1..] == q;
      QWeightAppend(g, rank, Kids(g, q[0]), NextLevel(g, q[1..]));
    }
  }

  /** Breadth-first order as an independent reference: the slots of `q`, then those one level
    * down, and so on until a level is empty. */
  ghost function LevelOrder(g: Graph, rank: map<NodeId, nat>, q: seq<Option<NodeId>>): seq<Option<NodeId>>
    requires Ranked(g, rank) && SlotsIn(g, rank, q)
    decreases QWeight(g, rank, q)
  {
    if q == [] then []
    else
      NextLevelWeight(g, rank, q);
      q + LevelOrder(g, rank, NextLevel(g, q))
  }

  lemma SlotsTail(g: Graph, rank: map<NodeId, nat>, q: seq<Option<NodeId>>)
    requires SlotsIn(g, rank, q) && q != []
    ensures SlotIn(g, rank, q[0]) && SlotsIn(g, rank, q[1..])
  {
    forall i | 0 <= i < |q[1..]| ensures SlotIn(g, rank, q[1..][i]) {
      assert q[1..][i] == q[i + 1];
    }
  }

  lemma SlotsKids(g: Graph, rank: map<NodeId, nat>, x: Option<NodeId>)
    requires Ranked(g, rank) && SlotIn(g, rank, x)
    ensures SlotsIn(g, rank, Kids(g, x))
  {
    if x.Some? && g[x.value].body.Symbol? {
      forall i | 0 <= i < |Kids(g, x)| ensures SlotIn(g, rank, Kids(g, x)[i]) {
        assert Kids(g, x)[i] in ChildrenOf(g, x.value);
      }
    }
  }

  /** Without a filter, `next_state` dequeues exactly the front and enqueues its children. */
  lemma SkimUnfiltered(g: Graph, rank: map<NodeId, nat>, q: seq<Option<NodeId>>)
    requires Ranked(g, rank) && SlotsIn(g, rank, q) && q != []
    ensures SlotsIn(g, rank, Expand(g, q))
    ensures Skim(g, rank, None, q) == Expand(g, q)
    ensures Visits(g, rank, None, q) == [q[0]] + Visits(g, rank, None, Expand(g, q))
  {
    ExpandWeight(g, rank, q);
  }

  /** Without a filter, the first turn over the queue `a + b` visits the front of `a` and
    * enqueues its children behind `b`. */
  lemma VisitsFront(g: Graph, rank: map<NodeId, nat>, a: seq<Option<NodeId>>, b: seq<Option<NodeId>>)
    requires Ranked(g, rank) && SlotsIn(g, rank, a) && SlotsIn(g, rank, b) && a != []
    ensures SlotsIn(g, rank, a + b) && SlotsIn(g, rank, a[1..] + (b + Kids(g, a[0])))
    ensures Visits(g, rank, None, a + b) == [a[0]] + Visits(g, rank, None, a[1..] + (b + Kids(g, a[0])))
  {
    QWeightAppend(g, rank, a, b);
    SkimUnfiltered(g, rank, a + b);
    TailAppend(a, b);
    Assoc(a[1..], b, Kids(g, a[0]));
  }

  /** Without a filter, sweeping the queue `a + b` visits `a` first and then sweeps `b`
    * followed by the children of `a`. */
  lemma {:induction false} VisitsSplit(g: Graph, rank: map<NodeId, nat>, a: seq<Option<NodeId>>, b: seq<Option<NodeId>>)
    requires Ranked(g, rank) && SlotsIn(g, rank, a) && SlotsIn(g, rank, b)
    ensures SlotsIn(g, rank, a + b) && SlotsIn(g, rank, b + NextLevel(g, a))
    ensures Visits(g, rank, None, a + b) == a + Visits(g, rank, None, b + NextLevel(g, a))
    decreases |a|
  {
    NextLevelWeight(g, rank, a);
    QWeightAppend(g, rank, a, b);
    QWeightAppend(g, rank, b, NextLevel(g, a));
    if a == [] {
      assert a + b == b && b + NextLevel(g, a) == b;
    } else {
      var x, a' := a[0], a[1..];
      var ks := Kids(g, x);
      var b' := b + ks;
      SlotsTail(g, rank, a);
      SlotsKids(g, rank, x);
      QWeightAppend(g, rank, b, ks);
      VisitsFront(g, rank, a, b);
      VisitsSplit(g, rank, a', b');
      assert b' + NextLevel(g, a') == b + NextLevel(g, a) by {
        Assoc(b, ks, NextLevel(g, a'));
      }
      Assoc([x], a', Visits(g, rank, None, b + NextLevel(g, a)));
      assert a == [x] + a';
    }
  }

  /** Without a filter, a sweep visits the slots in level order: the queue, then the level
    * below it, and so on. */
  lemma {:induction false} VisitsLevelOrder(g: Graph, rank: map<NodeId, nat>, q: seq<Option<NodeId>>)
    requires Ranked(g, rank) && SlotsIn(g, rank, q)
    ensures Visits(g, rank, None, q) == LevelOrder(g, rank, q)
    decreases QWeight(g, rank, q)
  {
    if q != [] {
      NextLevelWeight(g, rank, q);
      VisitsSplit(g, rank, q, []);
      assert q + [] == q && [] + NextLevel(g, q) == NextLevel(g, q);
      VisitsLevelOrder(g, rank, NextLevel(g, q));
    }
  }

  /** Level order holds every slot of the subtrees of the queue exactly as often as they
    * occur: its length is the total weight. */
  lemma {:induction false} LevelOrderLength(g: Graph, rank: map<NodeId, nat>, q: seq<Option<NodeId>>)
    requires Ranked(g, rank) && SlotsIn(g, rank, q)
    ensures |LevelOrder(g, rank, q)| == QWeight(g, rank, q)
    decreases QWeight(g, rank, q)
  {
    if q != [] {
      NextLevelWeight(g, rank, q);
      LevelOrderLength(g, rank, NextLevel(g, q));
    }
  }

  // ---------------------------------------------------------------------
  // Numbering
  // ---------------------------------------------------------------------

  /** What `TreeAnnotatorBFS` keeps: the stored `bfs_index` annotations and `m_bfs_index`. */
  datatype Numbering = Numbering(index: map<NodeId, int>, next: nat)

  /** One dispatch of the BFS annotator: a node gets the next number; a null slot uses one up
    * when null visits are allowed (`visit_null` only counts), and is skipped otherwise. */
  function StampOne(nb: Numbering, allowNull: bool, x: Option<NodeId>): Numbering
  {
    if x.Some? then Numbering(nb.index[x.value := nb.next], nb.next + 1)
    else if allowNull then nb.(next := nb.next + 1)
    else nb
  }

  /** Dispatching the slots `vs` in order. */
  function Stamp(nb: Numbering, allowNull: bool, vs: seq<Option<NodeId>>): Numbering
    decreases |vs|
  {
    if vs == [] then nb else Stamp(StampOne(nb, allowNull, vs[0]), allowNull, vs[1..])
  }

  /** With null visits allowed, the numbers are consecutive: the counter moves on by one per
    * slot, and a node dispatched for the last time at position `j` keeps the number
    * `next + j`. */
  lemma {:induction false} StampConsecutive(nb: Numbering, vs: seq<Option<NodeId>>)
    ensures Stamp(nb, true, vs).next == nb.next + |vs|
    ensures forall j :: 0 <= j < |vs| && vs[j].Some? && vs[j] !in vs[j + 1..] ==>
      vs[j].value in Stamp(nb, true, vs).index && Stamp(nb, true, vs).index[vs[j].value] == nb.next + j
    decreases |vs|
  {
    if vs != [] {
      var nb1 := StampOne(nb, true, vs[0]);
      StampConsecutive(nb1, vs[1..]);
      StampKeeps(nb1, vs[1..]);
      forall j | 0 < j < |vs| && vs[j].Some? && vs[j] !in vs[j + 1..]
        ensures Stamp(nb, true, vs).index[vs[j].value] == nb.next + j
      {
        assert vs[1..][j - 1] == vs[j] && vs[1..][j - 1 + 1..] == vs[j + 1..];
      }
    }
  }

  /** A node not among `vs` keeps its number. */
  lemma {:induction false} StampKeeps(nb: Numbering, vs: seq<Option<NodeId>>)
    ensures forall k :: k in nb.index && Some(k) !in vs ==> k in Stamp(nb, true, vs).index && Stamp(nb, true, vs).index[k] == nb.index[k]
    decreases |vs|
  {
    if vs != [] {
      StampKeeps(StampOne(nb, true, vs[0]), vs[1..]);
      assert forall k :: Some(k) !in vs ==> Some(k) !in vs[1..] && vs[0] != Some(k);
    }
  }

  /** Every node of `q` has rank below `b`. */
  ghost predicate Below(rank: map<NodeId, nat>, q: seq<Option<NodeId>>, b: nat)
  {
    forall i :: 0 <= i < |q| && q[i].Some? ==> q[i].value in rank && rank[q[i].value] < b
  }

  lemma {:induction false} NextLevelBelow(g: Graph, rank: map<NodeId, nat>, q: seq<Option<NodeId>>, b: nat)
    requires Ranked(g, rank) && SlotsIn(g, rank, q) && Below(rank, q, b)
    ensures Below(rank, NextLevel(g, q), b)
  {
    if q != [] {
      SlotsTail(g, rank, q);
      assert Below(rank, q[1..], b) by {
        forall i | 0 <= i < |q[1..]| && q[1..][i].Some? ensures q[1..][i].value in rank && rank[q[1..][i].value] < b {
          assert q[1..][i] == q[i + 1];
        }
      }
      NextLevelBelow(g, rank, q[1..], b);
      var ks := Kids(g, q[0]);
      forall i | 0 <= i < |ks| && ks[i].Some? ensures ks[i].value in rank && rank[ks[i].value] < b {
        assert Some(ks[i].value) in g[q[0].value].body.children;
      }
      var r := NextLevel(g, q[1..]);
      forall i | 0 <= i < |ks + r| && (ks + r)[i].Some? ensures (ks + r)[i].value in rank && rank[(ks + r)[i].value] < b {
        if i >= |ks| { assert (ks + r)[i] == r[i - |ks|]; }
      }
    }
  }

  lemma {:induction false} LevelOrderBelow(g: Graph, rank: map<NodeId, nat>, q: seq<Option<NodeId>>, b: nat)
    requires Ranked(g, rank) && SlotsIn(g, rank, q) && Below(rank, q, b)
    ensures Below(rank, LevelOrder(g, rank, q), b)
    decreases QWeight(g, rank, q)
  {
    if q != [] {
      NextLevelWeight(g, rank, q);
      NextLevelBelow(g, rank, q, b);
      LevelOrderBelow(g, rank, NextLevel(g, q), b);
      var r := LevelOrder(g, rank, NextLevel(g, q));
      forall i | 0 <= i < |q + r| && (q + r)[i].Some? ensures (q + r)[i].value in rank && rank[(q + r)[i].value] < b {
        if i >= |q| { assert (q + r)[i] == r[i - |q|]; }
      }
    }
  }

  /** `annotate_tree`'s BFS pass without a filter: starting from the counter `nb.next`, the
    * root gets the first number, and the counter moves on by the number of slots of the
    * tree, nulls included. */
  lemma BfsNumbering(g: Graph, rank: map<NodeId, nat>, r: NodeId, nb: Numbering)
    requires Ranked(g, rank) && r in g && r in rank
    ensures SlotsIn(g, rank, [Some(r)])
    ensures var out := Stamp(nb, true, Visits(g, rank, None, [Some(r)]));
      r in out.index && out.index[r] == nb.next && out.next == nb.next + Weight(g, rank, Some(r))
  {
    var q := [Some(r)];
    QWeightOne(g, rank, Some(r));
    VisitsLevelOrder(g, rank, q);
    LevelOrderLength(g, rank, q);
    var vs := LevelOrder(g, rank, q);
    NextLevelWeight(g, rank, q);
    assert NextLevel(g, q) == Kids(g, Some(r)) + NextLevel(g, []);
    var below := NextLevel(g, q);
    assert Below(rank, below, rank[r]) by {
      forall i | 0 <= i < |below| && below[i].Some? ensures below[i].value in rank && rank[below[i].value] < rank[r] {
        assert Some(below[i].value) in g[r].body.children;
      }
    }
    LevelOrderBelow(g, rank, below, rank[r]);
    assert vs == q + LevelOrder(g, rank, below);
    assert vs[1..] == LevelOrder(g, rank, below);
    assert Some(r) !in vs[1..];
    StampConsecutive(nb, vs);
  }

  /** A filter that accepts nothing visits what no filter visits. */
  lemma {:induction false} RejectingFilterVisits(g: Graph, rank: map<NodeId, nat>, f: Filter, q: seq<Option<NodeId>>)
    requires Ranked(g, rank) && SlotsIn(g, rank, q) && forall x :: !f(x)
    ensures Visits(g, rank, Some(f), q) == Visits(g, rank, None, q)
    decreases QWeight(g, rank, q)
  {
    if q != [] {
      ExpandWeight(g, rank, q);
      assert Skim(g, rank, Some(f), q) == Expand(g, q) == Skim(g, rank, None, q);
      RejectingFilterVisits(g, rank, f, Expand(g, q));
    }
  }

  // ---------------------------------------------------------------------
  // The queue stack
  // ---------------------------------------------------------------------

  /** `end_of_visitation`: the stack is empty or the top queue is. */
  predicate QueuesAtEnd(st: seq<seq<Option<NodeId>>>)
  {
    st == [] || st[|st| - 1] == []
  }

  /** The stack after `next_child(node)` has pushed a queue holding only `node`, if given. */
  function EnteredQ(st: seq<seq<Option<NodeId>>>, node: Option<NodeId>): seq<seq<Option<NodeId>>>
  {
    if node.Some? then st + [[node]] else st
  }

  /** `pop_state` */
  function PopQ(st: seq<seq<Option<NodeId>>>): seq<seq<Option<NodeId>>>
  {
    if st == [] then [] else st[..|st| - 1]
  }

  /** Every queue on the stack holds ranked slots. */
  ghost predicate QueuesIn(g: Graph, rank: map<NodeId, nat>, st: seq<seq<Option<NodeId>>>)
  {
    forall i :: 0 <= i < |st| ==> SlotsIn(g, rank, st[i])
  }

  /** `next_child(node, &child)` as a function of the stack: whether a slot was produced, the
    * value left in `child` (`prev` when none), and the new stack. */
  ghost function NextChildQ(g: Graph, rank: map<NodeId, nat>, f: Option<Filter>, st: seq<seq<Option<NodeId>>>,
                            node: Option<NodeId>, prev: Option<NodeId>): (bool, Option<NodeId>, seq<seq<Option<NodeId>>>)
    requires Ranked(g, rank) && QueuesIn(g, rank, EnteredQ(st, node))
  {
    var st1 := EnteredQ(st, node);
    if QueuesAtEnd(st1) then (false, prev, PopQ(st1))
    else
      var q := st1[|st1| - 1];
      (true, q[0], st1[..|st1| - 1] + [Skim(g, rank, f, q)])
  }

  /** `VisitorBFS` together with its subclass `TreeAnnotatorBFS`, its only concrete one: every
    * visit, of a node of any kind or of a null slot, takes the next number. */
  class TreeAnnotatorBFS {
    /** The arena the visited nodes live in; visits write only its `bfs_index` annotations. */
    const store: NodeStore
    /** `m_filter_cb` (`Filterable`) */
    var filter: Option<Filter>
    /** `m_allow_visit_null` */
    var allowNull: bool
    /** `m_visit_state_stack`, top last; each queue has its front first. */
    var stack: seq<seq<Option<NodeId>>>
    /** `m_bfs_index` */
    var bfsIndex: nat

    /** A new annotator: null visits allowed, no filter, an empty stack, counter 0. */
    constructor(store: NodeStore)
      ensures this.store == store
      ensures filter == None && allowNull && stack == [] && bfsIndex == 0
    {
      this.store := store;
      filter := None;
      allowNull := true;
      stack := [];
      bfsIndex := 0;
    }

    /** `set_allow_visit_null` */
    method SetAllowVisitNull(b: bool)
      modifies this`allowNull
      ensures allowNull == b
    {
      allowNull := b;
    }

    /** `set_filter_cb` */
    method SetFilterCb(f: Filter)
      modifies this`filter
      ensures filter == Some(f)
    {
      filter := Some(f);
    }

    ghost function Numbers(): Numbering
      reads this`bfsIndex, store`bfsIndex
    {
      Numbering(store.bfsIndex, bfsIndex)
    }

    /** `end_of_visitation` */
    predicate EndOfVisitation()
      reads this`stack
    {
      QueuesAtEnd(stack)
    }

    /** `push_state`: a new queue holding only `n`. */
    method PushState(n: NodeId)
      modifies this`stack
      ensures stack == old(stack) + [[Some(n)]]
    {
      stack := stack + [[Some(n)]];
    }

    /** `pop_state`: false on an empty stack, else the top queue is removed. */
    method PopState() returns (ok: bool)
      modifies this`stack
      ensures ok == (old(stack) != [])
      ensures stack == PopQ(old(stack))
    {
      if stack == [] {
        return false;
      }
      stack := stack[..|stack| - 1];
      return true;
    }

    /** One turn of the `do ... while` loop: the front's children are enqueued, in index order
      * and nulls included, then the front is dequeued. */
    method Dequeue(q: seq<Option<NodeId>>) returns (x: Option<NodeId>, r: seq<Option<NodeId>>)
      requires q != []
      ensures x == q[0] && r == Expand(store.objs, q)
    {
      x := q[0];
      r := q;
      if x.Some? && x.value in store.objs && store.objs[x.value].body.Symbol? {
        var cs := ChildrenOf(store.objs, x.value);
        for i := 0 to |cs|
          invariant r == q + cs[..i]
        {
          r := r + [cs[i]];
        }
        assert cs[..|cs|] == cs;
      }
      r := r[1..];
    }

    /** `next_state`: at the end the top queue is popped and the result is false; otherwise
      * the top queue loses its front, and then further slots while the filter accepts the
      * slot just dequeued and the queue is not empty. */
    method NextState(ghost rank: map<NodeId, nat>) returns (ok: bool)
      requires Ranked(store.objs, rank) && QueuesIn(store.objs, rank, stack)
      modifies this`stack
      ensures ok == !old(QueuesAtEnd(stack))
      ensures ok ==> stack == old(stack[..|stack| - 1] + [Skim(store.objs, rank, filter, stack[|stack| - 1])])
      ensures !ok ==> stack == PopQ(old(stack))
    {
      if EndOfVisitation() {
        var _ := PopState();
        return false;
      }
      ghost var q0 := stack[|stack| - 1];
      assert SlotsIn(store.objs, rank, q0);
      var x, q := Dequeue(stack[|stack| - 1]);
      ExpandWeight(store.objs, rank, q0);
      while filter.Some? && filter.value(x) && q != []
        invariant stack == old(stack) && SlotsIn(store.objs, rank, q)
        invariant Skim(store.objs, rank, filter, q0) == if Continues(filter, x, q) then Skim(store.objs, rank, filter, q) else q
        decreases QWeight(store.objs, rank, q)
      {
        ghost var q1 := q;
        x, q := Dequeue(q);
        ExpandWeight(store.objs, rank, q1);
      }
      stack := stack[..|stack| - 1] + [q];
      return true;
    }

    /** `get_current_node(&child)`: fails at the end, leaving `child` as it was; otherwise
      * yields the front of the top queue. */
    method GetCurrentNode(prev: Option<NodeId>) returns (ok: bool, child: Option<NodeId>)
      ensures ok == !EndOfVisitation()
      ensures child == if ok then stack[|stack| - 1][0] else prev
    {
      if EndOfVisitation() {
        return false, prev;
      }
      return true, stack[|stack| - 1][0];
    }

    /** `next_child(node, &child)`: push a queue for `node` when given, read the front, then
      * step the state. */
    method NextChild(node: Option<NodeId>, prev: Option<NodeId>, ghost rank: map<NodeId, nat>)
        returns (ok: bool, child: Option<NodeId>)
      requires Ranked(store.objs, rank) && QueuesIn(store.objs, rank, stack) && SlotIn(store.objs, rank, node)
      modifies this`stack
      ensures QueuesIn(store.objs, rank, EnteredQ(old(stack), node))
      ensures (ok, child, stack) == NextChildQ(store.objs, rank, filter, old(stack), node, prev)
      ensures QueuesIn(store.objs, rank, stack)
    {
      if node.Some? {
        PushState(node.value);
        assert stack[|stack| - 1] == [node];
      }
      ghost var st1 := stack;
      var _, c := GetCurrentNode(prev);
      child := c;
      ok := NextState(rank);
      if ok {
        assert stack[..|stack| - 1] == st1[..|st1| - 1];
      }
    }

    /** `abort_visitation`: pops at most one queue. */
    method AbortVisitation()
      modifies this`stack
      ensures stack == PopQ(old(stack))
    {
      var _ := PopState();
    }

    /** `TreeAnnotatorBFS::visit` of a node of any kind: the next number. */
    method Visit(n: NodeId)
      modifies this`bfsIndex, store`bfsIndex
      ensures Numbers() == StampOne(old(Numbers()), true, Some(n))
    {
      store.bfsIndex := store.bfsIndex[n := bfsIndex];
      bfsIndex := bfsIndex + 1;
    }

    /** `TreeAnnotatorBFS::visit_null`: only the counter moves on. */
    method VisitNull()
      modifies this`bfsIndex
      ensures Numbers() == StampOne(old(Numbers()), true, None)
    {
      bfsIndex := bfsIndex + 1;
    }

    /** `dispatch_visit(x)`: nothing for a null slot unless null visits are allowed. Every
      * overload of `visit` does the same here, whichever kind the node has. */
    method Dispatch(x: Option<NodeId>)
      modifies this`bfsIndex, store`bfsIndex
      ensures Numbers() == StampOne(old(Numbers()), allowNull, x)
    {
      if x.None? {
        if allowNull {
          VisitNull();
        }
        return;
      }
      Visit(x.value);
    }

    /** `visit_next_child(node, &child)`: fails without dispatching when `next_child` fails;
      * otherwise numbers exactly the slot it produced and returns it. */
    method VisitNextChild(node: Option<NodeId>, ghost rank: map<NodeId, nat>) returns (ok: bool, child: Option<NodeId>)
      requires Ranked(store.objs, rank) && QueuesIn(store.objs, rank, stack) && SlotIn(store.objs, rank, node)
      modifies this`stack, this`bfsIndex, store`bfsIndex
      ensures QueuesIn(store.objs, rank, EnteredQ(old(stack), node))
      ensures (ok, stack) == (NextChildQ(store.objs, rank, filter, old(stack), node, None).0, NextChildQ(store.objs, rank, filter, old(stack), node, None).2)
      ensures ok ==> child == NextChildQ(store.objs, rank, filter, old(stack), node, None).1
      ensures Numbers() == if ok then StampOne(old(Numbers()), allowNull, child) else old(Numbers())
      ensures QueuesIn(store.objs, rank, stack)
    {
      var c;
      ok, c := NextChild(node, None, rank);
      child := None;
      if !ok {
        return;
      }
      Dispatch(c);
      child := c;
    }
  }
}
