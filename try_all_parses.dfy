/** The part-of-speech path enumerator of the NatLang front end: every word of a sentence
  * gets a list of candidate parts of speech (merged from WordNet and from the lexer), and
  * every way of picking one candidate per word is emitted in lexicographic order. */
module TryAllParses {
  import opened Wrappers
  import opened XLangString

  // ---------------------------------------------------------------------
  // The containers the C++ code passes by pointer
  // ---------------------------------------------------------------------

  /** A `std::vector` or `std::list` that a callee appends to through a pointer. */
  class Container<T> {
    var contents: seq<T>

    constructor()
      ensures contents == []
    {
      contents := [];
    }

    method PushBack(x: T)
      modifies this
      ensures contents == old(contents) + [x]
    {
      contents := contents + [x];
    }
  }

  /** The `std::stack<int>` holding the indices picked so far; `items` lists it bottom first. */
  class IntStack {
    var items: seq<int>

    constructor()
      ensures items == []
    {
      items := [];
    }

    function Top(): int
      reads this
      requires items != []
    {
      items[|items| - 1]
    }

    method Push(x: int)
      modifies this
      ensures items == old(items) + [x]
    {
      items := items + [x];
    }

    method Pop()
      modifies this
      requires items != []
      ensures items == old(items)[..|old(items)| - 1]
    {
      items := items[..|items| - 1];
    }
  }

  // ---------------------------------------------------------------------
  // Index paths: the reference enumeration and its properties
  // ---------------------------------------------------------------------

  /** `v` picks one option of every row of `table`. */
  predicate IsPath(table: seq<seq<string>>, v: seq<int>)
  {
    |v| == |table| && forall i :: 0 <= i < |v| ==> 0 <= v[i] < |table[i]|
  }

  /** `[i] + t` for every `t` of `tails`, in order. */
  function Prefixed(i: int, tails: seq<seq<int>>): (r: seq<seq<int>>)
    ensures |r| == |tails|
  {
    seq(|tails|, k requires 0 <= k < |tails| => [i] + tails[k])
  }

  /** The paths that pick option `i`, then `i + 1`, ..., then `n - 1` first, each followed by
    * every one of `tails`. */
  function Branches(n: nat, i: nat, tails: seq<seq<int>>): seq<seq<int>>
    decreases n - i
  {
    if i >= n then [] else Prefixed(i, tails) + Branches(n, i + 1, tails)
  }

  /** Every index path of `table`, in the order `build_pos_paths_from_pos_options` emits them:
    * the first row's option varies slowest. */
  function Paths(table: seq<seq<string>>): seq<seq<int>>
  {
    if table == [] then [[]] else Branches(|table[0]|, 0, Paths(table[1..]))
  }

  /** The paths still to be emitted from row `w` on; a `word_index` that is negative (cast to
    * a huge `size_t`) or past the last row emits the current stack as it is. */
  function Remaining(table: seq<seq<string>>, w: int): seq<seq<int>>
  {
    if w < 0 || w >= |table| then [[]] else Paths(table[w..])
  }

  /** `p + v` for every `v` of `vs`, in order. */
  function Prepend(p: seq<int>, vs: seq<seq<int>>): (r: seq<seq<int>>)
    ensures |r| == |vs|
  {
    seq(|vs|, k requires 0 <= k < |vs| => p + vs[k])
  }

  /** The number of paths: the product of the row sizes. */
  function Product(table: seq<seq<string>>): nat
  {
    if table == [] then 1 else |table[0]| * Product(table[1..])
  }

  /** Strict lexicographic order of index vectors. */
  predicate LexLess(x: seq<int>, y: seq<int>)
  {
    x != [] && y != [] && (x[0] < y[0] || (x[0] == y[0] && LexLess(x[1..], y[1..])))
  }

  predicate LexSorted(vs: seq<seq<int>>)
  {
    forall a, b :: 0 <= a < b < |vs| ==> LexLess(vs[a], vs[b])
  }

  lemma PrefixedMembership(i: int, tails: seq<seq<int>>, v: seq<int>)
    ensures v in Prefixed(i, tails) <==> v != [] && v[0] == i && v[1..] in tails
  {
    var r := Prefixed(i, tails);
    if v in r {
      var k :| 0 <= k < |r| && r[k] == v;
      assert v[1..] == tails[k];
    }
    if v != [] && v[0] == i && v[1..] in tails {
      var k :| 0 <= k < |tails| && tails[k] == v[1..];
      assert r[k] == v;
    }
  }

  lemma {:induction false} BranchesMembership(n: nat, i: nat, tails: seq<seq<int>>, v: seq<int>)
    ensures v in Branches(n, i, tails) <==> v != [] && i <= v[0] < n && v[1..] in tails
    decreases n - i
  {
    if i < n {
      PrefixedMembership(i, tails, v);
      BranchesMembership(n, i + 1, tails, v);
    }
  }

  /** A vector is emitted exactly when it picks one option of every row. */
  lemma {:induction false} PathsMembership(table: seq<seq<string>>, v: seq<int>)
    ensures v in Paths(table) <==> IsPath(table, v)
  {
    if table != [] {
      BranchesMembership(|table[0]|, 0, Paths(table[1..]), v);
      if v != [] {
        PathsMembership(table[1..], v[1..]);
        if IsPath(table[1..], v[1..]) && 0 <= v[0] < |table[0]| {
          forall i | 0 <= i < |v| ensures 0 <= v[i] < |table[i]| {
            if i > 0 { assert v[i] == v[1..][i - 1]; }
          }
        }
        if IsPath(table, v) {
          forall i | 0 <= i < |v[1..]| ensures 0 <= v[1..][i] < |table[1..][i]| {
            assert v[1..][i] == v[i + 1];
          }
        }
      }
    }
  }

  lemma {:induction false} BranchesCount(n: nat, i: nat, tails: seq<seq<int>>)
    ensures |Branches(n, i, tails)| == (if i <= n then n - i else 0) * |tails|
    decreases n - i
  {
    if i < n {
      BranchesCount(n, i + 1, tails);
      assert (n - i) * |tails| == |tails| + (n - (i + 1)) * |tails|;
    }
  }

  /** There are as many paths as the product of the row sizes. */
  lemma {:induction false} PathsCount(table: seq<seq<string>>)
    ensures |Paths(table)| == Product(table)
  {
    if table != [] {
      PathsCount(table[1..]);
      BranchesCount(|table[0]|, 0, Paths(table[1..]));
    }
  }

  /** The product is zero exactly when some row is empty. */
  lemma {:induction false} ProductZero(table: seq<seq<string>>)
    ensures Product(table) == 0 <==> exists i :: 0 <= i < |table| && table[i] == []
  {
    if table != [] {
      ProductZero(table[1..]);
      if exists i :: 0 <= i < |table[1..]| && table[1..][i] == [] {
        var i :| 0 <= i < |table[1..]| && table[1..][i] == [];
        assert table[i + 1] == [];
      }
      if exists i :: 0 <= i < |table| && table[i] == [] {
        var i :| 0 <= i < |table| && table[i] == [];
        if i > 0 { assert table[1..][i - 1] == []; }
      }
    }
  }

  /** An empty table gives the one empty path; a table with an empty row gives none. */
  lemma EmptyCases(table: seq<seq<string>>)
    ensures table == [] ==> Paths(table) == [[]]
    ensures (exists i :: 0 <= i < |table| && table[i] == []) ==> Paths(table) == []
  {
    PathsCount(table);
    ProductZero(table);
  }

  lemma {:induction false} LexLessIrreflexive(x: seq<int>)
    ensures !LexLess(x, x)
  {
    if x != [] { LexLessIrreflexive(x[1..]); }
  }

  lemma PrefixedSorted(i: int, tails: seq<seq<int>>)
    requires LexSorted(tails)
    ensures LexSorted(Prefixed(i, tails))
  {
    var r := Prefixed(i, tails);
    forall a, b | 0 <= a < b < |r| ensures LexLess(r[a], r[b]) {
      assert r[a][1..] == tails[a] && r[b][1..] == tails[b];
    }
  }

  lemma SortedConcat(xs: seq<seq<int>>, ys: seq<seq<int>>)
    requires LexSorted(xs) && LexSorted(ys)
    requires forall a, b :: 0 <= a < |xs| && 0 <= b < |ys| ==> LexLess(xs[a], ys[b])
    ensures LexSorted(xs + ys)
  {
    var r := xs + ys;
    forall a, b | 0 <= a < b < |r| ensures LexLess(r[a], r[b]) {
      if b < |xs| {
        assert r[a] == xs[a] && r[b] == xs[b];
      } else if a < |xs| {
        assert r[a] == xs[a] && r[b] == ys[b - |xs|];
      } else {
        assert r[a] == ys[a - |xs|] && r[b] == ys[b - |xs|];
      }
    }
  }

  lemma {:induction false} BranchesSorted(n: nat, i: nat, tails: seq<seq<int>>)
    requires LexSorted(tails)
    ensures LexSorted(Branches(n, i, tails))
    decreases n - i
  {
    if i < n {
      PrefixedSorted(i, tails);
      BranchesSorted(n, i + 1, tails);
      var xs := Prefixed(i, tails);
      var ys := Branches(n, i + 1, tails);
      forall a, b | 0 <= a < |xs| && 0 <= b < |ys| ensures LexLess(xs[a], ys[b]) {
        PrefixedMembership(i, tails, xs[a]);
        BranchesMembership(n, i + 1, tails, ys[b]);
      }
      SortedConcat(xs, ys);
    }
  }

  /** Paths come out in strictly increasing lexicographic order. */
  lemma {:induction false} PathsSorted(table: seq<seq<string>>)
    ensures LexSorted(Paths(table))
  {
    if table != [] {
      PathsSorted(table[1..]);
      BranchesSorted(|table[0]|, 0, Paths(table[1..]));
    }
  }

  /** Every path of the table is emitted exactly once, and nothing else is. */
  lemma PathsExactlyOnce(table: seq<seq<string>>)
    ensures forall v :: v in Paths(table) <==> IsPath(table, v)
    ensures forall a, b :: 0 <= a < b < |Paths(table)| ==> Paths(table)[a] != Paths(table)[b]
  {
    forall v ensures v in Paths(table) <==> IsPath(table, v) {
      PathsMembership(table, v);
    }
    PathsSorted(table);
    forall a, b | 0 <= a < b < |Paths(table)| ensures Paths(table)[a] != Paths(table)[b] {
      LexLessIrreflexive(Paths(table)[a]);
    }
  }

  // ---------------------------------------------------------------------
  // build_pos_paths_from_pos_options
  // ---------------------------------------------------------------------

  lemma RemainingStep(table: seq<seq<string>>, w: int)
    requires 0 <= w < |table|
    ensures Remaining(table, w) == Branches(|table[w]|, 0, Remaining(table, w + 1))
  {
    assert table[w..][0] == table[w];
    assert table[w..][1..] == table[w + 1..];
  }

  /** Emitting the branch for option `i` with `i` pushed is emitting the first block of
    * `Branches(n, i, tails)`. */
  lemma BranchStep(p: seq<int>, n: nat, i: nat, tails: seq<seq<int>>)
    requires i < n
    ensures Prepend(p, Branches(n, i, tails)) == Prepend(p + [i], tails) + Prepend(p, Branches(n, i + 1, tails))
  {
    var xs := Prefixed(i, tails);
    var ys := Branches(n, i + 1, tails);
    var lhs := Prepend(p, xs + ys);
    var rhs := Prepend(p + [i], tails) + Prepend(p, ys);
    forall k | 0 <= k < |lhs| ensures lhs[k] == rhs[k] {
      if k < |xs| {
        assert (xs + ys)[k] == [i] + tails[k];
        assert p + ([i] + tails[k]) == (p + [i]) + tails[k];
      } else {
        assert (xs + ys)[k] == ys[k - |xs|];
      }
    }
  }

  /** The base case: copy the stack, bottom first, into a vector by popping it, append the
    * vector, and push its entries back. */
  method EmitStack(pathsOut: Container<seq<int>>, stack: IntStack)
    modifies pathsOut, stack
    ensures stack.items == old(stack.items)
    ensures pathsOut.contents == old(pathsOut.contents) + [old(stack.items)]
  {
    ghost var s0 := stack.items;
    var n := |stack.items|;
    var vec := new int[n];
    var i := 0;
    while i < n
      invariant 0 <= i <= n
      invariant stack.items == s0[..n - i]
      invariant forall k :: n - i <= k < n ==> vec[k] == s0[k]
      invariant pathsOut.contents == old(pathsOut.contents)
    {
      vec[n - i - 1] := stack.Top();
      stack.Pop();
      i := i + 1;
    }
    assert vec[..] == s0;
    pathsOut.PushBack(vec[..]);
    var j := 0;
    while j < n
      invariant 0 <= j <= n
      invariant stack.items == vec[..j]
      invariant vec[..] == s0
      invariant pathsOut.contents == old(pathsOut.contents) + [s0]
    {
      stack.Push(vec[j]);
      assert vec[..j + 1] == vec[..j] + [vec[j]];
      j := j + 1;
    }
  }

  /** `build_pos_paths_from_pos_options(pos_paths, table, pos_path, word_index)`: appends every
    * remaining path, each after the indices already on the stack, and leaves the stack as it
    * found it; a null list or stack makes it do nothing. */
  method BuildPosPathsFrom(pathsOut: Container?<seq<int>>, table: seq<seq<string>>, stack: IntStack?, wordIndex: int)
    modifies pathsOut, stack
    ensures stack != null ==> stack.items == old(stack.items)
    ensures pathsOut != null ==>
      pathsOut.contents == old(pathsOut.contents) + (if stack == null then [] else Prepend(old(stack.items), Remaining(table, wordIndex)))
    decreases |table| - wordIndex, 1
  {
    if pathsOut == null || stack == null {
      return;
    }
    if wordIndex < 0 || wordIndex >= |table| {
      EmitStack(pathsOut, stack);
      PrependSingle(old(stack.items));
      return;
    }
    BuildPosPathsOptions(pathsOut, table, stack, wordIndex);
  }

  /** The loop of `build_pos_paths_from_pos_options` over the options of word `wordIndex`:
    * each option index is pushed, the paths of the later words are appended after it, and
    * it is popped again. */
  method BuildPosPathsOptions(pathsOut: Container<seq<int>>, table: seq<seq<string>>, stack: IntStack, wordIndex: int)
    requires 0 <= wordIndex < |table|
    modifies pathsOut, stack
    ensures stack.items == old(stack.items)
    ensures pathsOut.contents == old(pathsOut.contents) + Prepend(old(stack.items), Remaining(table, wordIndex))
    decreases |table| - wordIndex, 0
  {
    ghost var s0 := stack.items;
    ghost var p0 := pathsOut.contents;
    ghost var tails := Remaining(table, wordIndex + 1);
    RemainingStep(table, wordIndex);
    var options := table[wordIndex];
    var posIndex := 0;
    while posIndex < |options|
      invariant 0 <= posIndex <= |options|
      invariant stack.items == s0
      invariant pathsOut.contents + Prepend(s0, Branches(|options|, posIndex, tails))
        == p0 + Prepend(s0, Branches(|options|, 0, tails))
    {
      ghost var before := pathsOut.contents;
      BranchStep(s0, |options|, posIndex, tails);
      stack.Push(posIndex);
      BuildPosPathsFrom(pathsOut, table, stack, wordIndex + 1);
      stack.Pop();
      assert (s0 + [posIndex])[..|s0|] == s0;
      Assoc(before, Prepend(s0 + [posIndex], tails), Prepend(s0, Branches(|options|, posIndex + 1, tails)));
      posIndex := posIndex + 1;
    }
    assert Prepend(s0, Branches(|options|, posIndex, tails)) == [];
  }

  lemma PrependSingle(p: seq<int>)
    ensures Prepend(p, [[]]) == [p]
  {
    var one: seq<seq<int>> := [[]];
    var r := Prepend(p, one);
    assert r[0] == p + one[0];
    assert p + one[0] == p;
    assert r == [p];
  }

  lemma PrependEmpty(vs: seq<seq<int>>)
    ensures Prepend([], vs) == vs
  {
    var r := Prepend([], vs);
    forall k | 0 <= k < |vs| ensures r[k] == vs[k] {
      assert r[k] == [] + vs[k];
    }
  }

  /** `build_pos_paths_from_pos_options(pos_paths, table)`: appends every index path of the
    * table, in lexicographic order, starting from an empty stack. */
  method BuildPosPaths(pathsOut: Container?<seq<int>>, table: seq<seq<string>>)
    modifies pathsOut
    ensures pathsOut != null ==> pathsOut.contents == old(pathsOut.contents) + Paths(table)
  {
    if pathsOut == null {
      return;
    }
    var stack := new IntStack();
    BuildPosPathsFrom(pathsOut, table, stack, 0);
    PrependEmpty(Remaining(table, 0));
    assert Remaining(table, 0) == Paths(table) by {
      if table != [] { assert table[0..] == table; }
    }
  }

  // ---------------------------------------------------------------------
  // get_pos_values: merging the WordNet and lexer answers
  // ---------------------------------------------------------------------

  /** The parts of speech `get_pos_values_from_wordnet` can report, one per WordNet
    * familiarity query (`n`, `v`, `a`, `r`). */
  const WordnetNames: set<string> := {"Noun", "Verb", "Adj", "Adv"}

  type WordnetPos = s: string | s in WordnetNames witness "Noun"

  /** The lookups `get_pos_values` relies on and that are not part of this model. */
  datatype Oracles = Oracles(
    /** `get_pos_values_from_wordnet`: the parts of speech WordNet lists for a word, ranked by
      * familiarity, or None when it returns false. */
    wordnet: string -> Option<seq<WordnetPos>>,
    /** `quick_lex`: the lexer id for a query, 0 for no match, None when the lexer throws. */
    quickLex: string -> Option<nat>,
    /** `id_to_name` */
    idToName: nat -> string)

  /** The extra values pushed after a lexer's `Conj` or `Prep`. */
  const ExpansionNames: set<string> := {"Conj_VP", "Conj_CS", "Prep_VP"}

  function OptList<T>(x: Option<T>): (r: seq<T>)
    ensures |r| <= 1
    ensures r != [] <==> x.Some?
  {
    match x
    case Some(v) => [v]
    case None => []
  }

  function OrEmpty<T>(x: Option<seq<T>>): seq<T>
  {
    match x
    case Some(v) => v
    case None => []
  }

  /** The text `get_pos_values_from_lexer` feeds the lexer; the blank ends the word. */
  function LexerQuery(word: string, group: string): string
  {
    "[" + group + "]<" + word + " >"
  }

  /** The value `get_pos_values_from_lexer` pushes for `word` in `group`, if any. */
  function LexerValue(word: string, group: string, o: Oracles): (r: Option<string>)
    ensures r.Some? ==> word != "" && r.value != ""
    ensures r.Some? <==> word != "" && match o.quickLex(LexerQuery(word, group))
      case Some(id) => id != 0 && o.idToName(id) != ""
      case None => false
  {
    if word == "" then None
    else match o.quickLex(LexerQuery(word, group))
      case None => None
      case Some(id) =>
        var v := if id != 0 then o.idToName(id) else "";
        if v == "" then None else Some(v)
  }

  /** `get_pos_values_from_lexer(word, pos_values, group)` */
  method GetPosValuesFromLexer(word: string, posValues: Container?<string>, group: string, o: Oracles) returns (found: bool)
    modifies posValues
    ensures found <==> posValues != null && LexerValue(word, group, o).Some?
    ensures posValues != null ==> posValues.contents == old(posValues.contents) + OptList(LexerValue(word, group, o))
  {
    if word == "" || posValues == null {
      return false;
    }
    var posValue := "";
    var wordAlt := LexerQuery(word, group);
    var lexed := o.quickLex(wordAlt);
    if lexed.None? {
      return false;
    }
    if lexed.value != 0 {
      posValue := o.idToName(lexed.value);
    }
    if posValue == "" {
      return false;
    }
    posValues.PushBack(posValue);
    found := true;
  }

  /** What the nine lexer lookups push, in order; the first, two-argument call names no
    * group. */
  function LexerHits(word: string, o: Oracles): seq<string>
  {
    OptList(LexerValue(word, "", o)) + OptList(LexerValue(word, "noun", o))
    + OptList(LexerValue(word, "verb", o)) + OptList(LexerValue(word, "adj", o))
    + OptList(LexerValue(word, "adv", o)) + OptList(LexerValue(word, "suffix_noun", o))
    + OptList(LexerValue(word, "suffix_verb", o)) + OptList(LexerValue(word, "suffix_adj", o))
    + OptList(LexerValue(word, "suffix_adv", o))
  }

  /** The nine lookups of `get_pos_values`, in order, into one vector; `found` is whether any
    * of them matched. */
  method LexerLookups(word: string, fromLexer: Container<string>, o: Oracles) returns (found: bool)
    modifies fromLexer
    requires fromLexer.contents == []
    ensures fromLexer.contents == LexerHits(word, o)
    ensures found <==> LexerHits(word, o) != []
  {
    var f := GetPosValuesFromLexer(word, fromLexer, "", o);
    assert fromLexer.contents == OptList(LexerValue(word, "", o));
    found := f;
    f := GetPosValuesFromLexer(word, fromLexer, "noun", o);
    found := found || f;
    f := GetPosValuesFromLexer(word, fromLexer, "verb", o);
    found := found || f;
    f := GetPosValuesFromLexer(word, fromLexer, "adj", o);
    found := found || f;
    f := GetPosValuesFromLexer(word, fromLexer, "adv", o);
    found := found || f;
    f := GetPosValuesFromLexer(word, fromLexer, "suffix_noun", o);
    found := found || f;
    f := GetPosValuesFromLexer(word, fromLexer, "suffix_verb", o);
    found := found || f;
    f := GetPosValuesFromLexer(word, fromLexer, "suffix_adj", o);
    found := found || f;
    f := GetPosValuesFromLexer(word, fromLexer, "suffix_adv", o);
    found := found || f;
  }

  /** What follows a value taken from the lexer: `Conj` brings `Conj_VP` and `Conj_CS`,
    * `Prep` brings `Prep_VP`; WordNet values bring nothing. */
  function Expansion(p: string, expand: bool): (r: seq<string>)
    ensures forall x :: x in r ==> x in ExpansionNames
  {
    if expand && p == "Conj" then ["Conj_VP", "Conj_CS"]
    else if expand && p == "Prep" then ["Prep_VP"]
    else []
  }

  function Elems(s: seq<string>): set<string>
  {
    set x | x in s
  }

  datatype Merged = Merged(out: seq<string>, seen: set<string>)

  /** One de-duplicating pass: each value not yet in `seen` is pushed (with its expansion) and
    * remembered; `seen` at the end is the `unique_pos_values` set the pass leaves. */
  function Merge(vals: seq<string>, seen: set<string>, expand: bool): Merged
  {
    if vals == [] then Merged([], seen)
    else if vals[0] in seen then Merge(vals[1..], seen, expand)
    else
      var ex := Expansion(vals[0], expand);
      var rest := Merge(vals[1..], seen + {vals[0]} + Elems(ex), expand);
      Merged([vals[0]] + ex + rest.out, rest.seen)
  }

  /** A value whose pushes are all de-duplicated: any value of a WordNet pass, and any value
    * of a lexer pass other than the three expansion names. */
  predicate Plain(v: string, expand: bool)
  {
    !expand || v !in ExpansionNames
  }

  /** A pass pushes exactly the plain values it was given and had not seen, each once; it
    * remembers what it had seen and everything it was given, and nothing else but the
    * expansion names. */
  lemma {:induction false} MergeAt(vals: seq<string>, seen: set<string>, expand: bool, v: string)
    ensures v in seen || v in vals ==> v in Merge(vals, seen, expand).seen
    ensures v in Merge(vals, seen, expand).seen ==> v in seen || v in vals || v in ExpansionNames
    ensures Plain(v, expand) ==> (v in Merge(vals, seen, expand).out <==> v in vals && v !in seen)
    ensures Plain(v, expand) ==> multiset(Merge(vals, seen, expand).out)[v] <= 1
  {
    if vals != [] {
      var v0 := vals[0];
      assert v in vals <==> v == v0 || v in vals[1..];
      if v0 in seen {
        MergeAt(vals[1..], seen, expand, v);
      } else {
        var ex := Expansion(v0, expand);
        var seen' := seen + {v0} + Elems(ex);
        var rest := Merge(vals[1..], seen', expand);
        MergeAt(vals[1..], seen', expand, v);
        var out := [v0] + ex + rest.out;
        assert Merge(vals, seen, expand).out == out;
        assert v in Elems(ex) ==> v in ExpansionNames;
        if Plain(v, expand) {
          assert v !in ex;
          assert multiset(out)[v] == multiset([v0])[v] + multiset(ex)[v] + multiset(rest.out)[v];
        }
      }
    }
  }

  /** Every `Conj` is followed at once by `Conj_VP` and `Conj_CS`, every `Prep` by `Prep_VP`. */
  predicate Followed(s: seq<string>)
  {
    forall i :: 0 <= i < |s| ==> FollowedAt(s, i)
  }

  predicate FollowedAt(s: seq<string>, i: nat)
    requires i < |s|
  {
    (s[i] == "Conj" ==> i + 2 < |s| && s[i + 1] == "Conj_VP" && s[i + 2] == "Conj_CS")
    && (s[i] == "Prep" ==> i + 1 < |s| && s[i + 1] == "Prep_VP")
  }

  lemma FollowedConcat(a: seq<string>, b: seq<string>)
    requires Followed(b)
    requires forall i :: 0 <= i < |a| ==> a[i] != "Conj" && a[i] != "Prep"
    ensures Followed(a + b)
  {
    var s := a + b;
    forall i | 0 <= i < |s| ensures FollowedAt(s, i) {
      if i >= |a| {
        var k := i - |a|;
        assert s[i] == b[k] && FollowedAt(b, k);
        if b[k] == "Conj" {
          assert s[i + 1] == b[k + 1] && s[i + 2] == b[k + 2];
        }
        if b[k] == "Prep" {
          assert s[i + 1] == b[k + 1];
        }
      } else {
        assert s[i] == a[i];
      }
    }
  }

  /** In a lexer pass, each `Conj` and `Prep` is immediately followed by its expansions. */
  lemma {:induction false} MergeFollowed(vals: seq<string>, seen: set<string>)
    ensures Followed(Merge(vals, seen, true).out)
  {
    if vals != [] {
      var v0 := vals[0];
      if v0 in seen {
        MergeFollowed(vals[1..], seen);
      } else {
        var ex := Expansion(v0, true);
        var rest := Merge(vals[1..], seen + {v0} + Elems(ex), true);
        MergeFollowed(vals[1..], seen + {v0} + Elems(ex));
        FollowedConcat(ex, rest.out);
        HeadFollowed(v0, ex, rest.out);
        assert Merge(vals, seen, true).out == [v0] + (ex + rest.out);
      }
    }
  }

  /** A lexer value followed by its own expansion keeps the order property. */
  lemma HeadFollowed(v0: string, ex: seq<string>, t: seq<string>)
    requires ex == Expansion(v0, true)
    requires Followed(ex + t)
    ensures Followed([v0] + (ex + t))
  {
    var u := ex + t;
    var s := [v0] + u;
    forall i | 0 <= i < |s| ensures FollowedAt(s, i) {
      if i == 0 {
        if v0 == "Conj" {
          assert s[1] == ex[0] && s[2] == ex[1];
        }
        if v0 == "Prep" {
          assert s[1] == ex[0];
        }
      } else {
        var k := i - 1;
        assert s[i] == u[k] && FollowedAt(u, k);
        if u[k] == "Conj" {
          assert s[i + 1] == u[k + 1] && s[i + 2] == u[k + 2];
        }
        if u[k] == "Prep" {
          assert s[i + 1] == u[k + 1];
        }
      }
    }
  }

  /** Everything an oracle offered for `word`, in the order `get_pos_values` considers it. */
  function Candidates(word: string, o: Oracles): seq<string>
  {
    OrEmpty(o.wordnet(word)) + LexerHits(word, o)
  }

  /** The WordNet pass of `get_pos_values`, starting from an empty set. */
  function WordnetPass(answer: Option<seq<string>>): Merged
  {
    match answer
    case Some(ws) => Merge(ws, {}, false)
    case None => Merged([], {})
  }

  /** The lexer pass of `get_pos_values`, run only when some lookup matched. */
  function LexerPass(hits: seq<string>, seen: set<string>): seq<string>
  {
    if hits != [] then Merge(hits, seen, true).out else []
  }

  /** The values a word's answers contribute, after `prior`: the WordNet pass, then the lexer
    * pass, or `Noun` when the vector would otherwise stay empty. */
  function MergedAnswers(prior: seq<string>, answer: Option<seq<string>>, hits: seq<string>): (r: seq<string>)
    ensures prior + r != []
  {
    var found := Found(answer, hits);
    if prior + found == [] then ["Noun"] else found
  }

  /** The values the two passes push. */
  function Found(answer: Option<seq<string>>, hits: seq<string>): seq<string>
  {
    var wn := WordnetPass(answer);
    wn.out + LexerPass(hits, wn.seen)
  }

  /** What `get_pos_values` appends to a vector that holds `prior`, or None when it returns
    * false. */
  function PosValues(word: string, prior: seq<string>, o: Oracles): (r: Option<seq<string>>)
    ensures r.None? <==> word == ""
    ensures word == "." ==> r == Some(["$"])
    ensures r.Some? ==> prior + r.value != []
  {
    if word == "" then None
    else if word == "." then Some(["$"])
    else Some(MergedAnswers(prior, o.wordnet(word), LexerHits(word, o)))
  }

  /** The de-duplicating loop of `get_pos_values` over the WordNet answers (`expand` false)
    * or over the lexer answers (`expand` true): pushes into `posValues` and grows the set of
    * values seen so far. */
  method MergeInto(posValues: Container<string>, vals: seq<string>, unique0: set<string>, expand: bool)
    returns (unique: set<string>)
    modifies posValues
    ensures posValues.contents == old(posValues.contents) + Merge(vals, unique0, expand).out
    ensures unique == Merge(vals, unique0, expand).seen
  {
    unique := unique0;
    var q := 0;
    while q < |vals|
      invariant 0 <= q <= |vals|
      invariant posValues.contents + Merge(vals[q..], unique, expand).out
        == old(posValues.contents) + Merge(vals, unique0, expand).out
      invariant Merge(vals[q..], unique, expand).seen == Merge(vals, unique0, expand).seen
    {
      var p := vals[q];
      assert vals[q..][0] == p && vals[q..][1..] == vals[q + 1..];
      if p !in unique {
        ghost var before := posValues.contents;
        ghost var seen := unique;
        posValues.PushBack(p);
        unique := unique + {p};
        if expand && p == "Conj" {
          posValues.PushBack("Conj_VP");
          posValues.PushBack("Conj_CS");
          unique := unique + {"Conj_VP"} + {"Conj_CS"};
        }
        if expand && p == "Prep" {
          posValues.PushBack("Prep_VP");
          unique := unique + {"Prep_VP"};
        }
        ExpansionPushed(p, expand, before, posValues.contents, seen, unique);
        Assoc(before, [p] + Expansion(p, expand), Merge(vals[q + 1..], unique, expand).out);
      }
      q := q + 1;
    }
    assert vals[q..] == [];
  }

  /** The pushes and inserts for one new value are its expansion. */
  lemma ExpansionPushed(p: string, expand: bool, before: seq<string>, after: seq<string>, seen: set<string>, seen': set<string>)
    requires expand && p == "Conj" ==> after == before + [p] + ["Conj_VP"] + ["Conj_CS"] && seen' == seen + {p} + {"Conj_VP"} + {"Conj_CS"}
    requires expand && p == "Prep" ==> after == before + [p] + ["Prep_VP"] && seen' == seen + {p} + {"Prep_VP"}
    requires !(expand && p in {"Conj", "Prep"}) ==> after == before + [p] && seen' == seen + {p}
    ensures after == before + ([p] + Expansion(p, expand))
    ensures seen' == seen + {p} + Elems(Expansion(p, expand))
  {
    var ex := Expansion(p, expand);
    if expand && p == "Conj" {
      assert Elems(ex) == {"Conj_VP", "Conj_CS"} by { assert ex[0] == "Conj_VP" && ex[1] == "Conj_CS"; }
    } else if expand && p == "Prep" {
      assert Elems(ex) == {"Prep_VP"} by { assert ex[0] == "Prep_VP"; }
    } else {
      assert Elems(ex) == {};
    }
  }

  /** The body of `get_pos_values` for a word other than `""` and `"."`. */
  method MergeAnswers(word: string, posValues: Container<string>, o: Oracles)
    modifies posValues
    ensures posValues.contents == old(posValues.contents) + MergedAnswers(old(posValues.contents), o.wordnet(word), LexerHits(word, o))
  {
    ghost var prior := posValues.contents;
    var unique: set<string> := {};
    var fromWordnet := o.wordnet(word);
    ghost var wn := WordnetPass(fromWordnet);
    if fromWordnet.Some? {
      unique := MergeInto(posValues, fromWordnet.value, unique, false);
    }
    assert posValues.contents == prior + wn.out && unique == wn.seen;
    var fromLexer := new Container<string>();
    var hits := LexerLookups(word, fromLexer, o);
    ghost var found := Found(fromWordnet, fromLexer.contents);
    if hits {
      unique := MergeInto(posValues, fromLexer.contents, unique, true);
      Assoc(prior, wn.out, Merge(fromLexer.contents, wn.seen, true).out);
    } else {
      assert found == wn.out + [] == wn.out;
    }
    assert posValues.contents == prior + found;
    if posValues.contents == [] {
      posValues.PushBack("Noun");
    }
    assert posValues.contents == prior + MergedAnswers(prior, fromWordnet, fromLexer.contents);
  }

  /** `get_pos_values(word, pos_values)`: false and nothing pushed for an empty word or a null
    * vector; otherwise true, with the merged WordNet and lexer answers appended. */
  method GetPosValues(word: string, posValues: Container?<string>, o: Oracles) returns (ok: bool)
    modifies posValues
    ensures posValues == null ==> !ok
    ensures posValues != null ==> ok == PosValues(word, old(posValues.contents), o).Some?
    ensures posValues != null ==>
      posValues.contents == old(posValues.contents) + OrEmpty(PosValues(word, old(posValues.contents), o))
  {
    if word == "" || posValues == null {
      return false;
    }
    if word == "." {
      posValues.PushBack("$");
      return true;
    }
    MergeAnswers(word, posValues, o);
    return true;
  }

  /** The two passes push a value other than the expansion names at most once, and push it
    * exactly when an oracle offered it. */
  lemma FoundAt(answer: Option<seq<string>>, hits: seq<string>, v: string)
    requires v !in ExpansionNames
    ensures multiset(Found(answer, hits))[v] <= 1
    ensures v in Found(answer, hits) <==> v in OrEmpty(answer) || v in hits
  {
    var ws := OrEmpty(answer);
    var wn := WordnetPass(answer);
    assert wn == Merge(ws, {}, false);
    var lx := LexerPass(hits, wn.seen);
    MergeAt(ws, {}, false, v);
    MergeAt(hits, wn.seen, true, v);
    assert hits != [] ==> lx == Merge(hits, wn.seen, true).out;
    assert multiset(wn.out + lx)[v] == multiset(wn.out)[v] + multiset(lx)[v];
  }

  /** The merge of a word's answers: values other than the three expansion names appear at
    * most once, and every such value an oracle offered is kept and nothing else is, unless
    * the `Noun` fallback applies. */
  lemma MergedAnswersUnique(prior: seq<string>, answer: Option<seq<string>>, hits: seq<string>)
    ensures forall v :: v !in ExpansionNames ==> multiset(MergedAnswers(prior, answer, hits))[v] <= 1
    ensures forall v :: v !in ExpansionNames && v in OrEmpty(answer) + hits ==> v in MergedAnswers(prior, answer, hits)
    ensures forall v :: v !in ExpansionNames && v in MergedAnswers(prior, answer, hits) ==>
      v in OrEmpty(answer) + hits || MergedAnswers(prior, answer, hits) == ["Noun"]
  {
    var r := MergedAnswers(prior, answer, hits);
    forall v | v !in ExpansionNames
      ensures multiset(r)[v] <= 1
      ensures v in OrEmpty(answer) + hits ==> v in r
      ensures v in r ==> v in OrEmpty(answer) + hits || r == ["Noun"]
    {
      FoundAt(answer, hits, v);
      assert v in OrEmpty(answer) + hits <==> v in OrEmpty(answer) || v in hits;
    }
  }

  /** With no answer at all, an empty vector gets `Noun` and a non-empty one nothing. */
  lemma MergedAnswersFallback(prior: seq<string>, answer: Option<seq<string>>, hits: seq<string>)
    requires OrEmpty(answer) + hits == []
    ensures MergedAnswers(prior, answer, hits) == (if prior == [] then ["Noun"] else [])
  {
    assert OrEmpty(answer) == [] && hits == [];
    assert WordnetPass(answer) == Merge([], {}, false);
  }

  /** Each `Conj` and `Prep` of the merge is followed by its expansions: WordNet never offers
    * either, so both come from the lexer pass. */
  lemma MergedAnswersFollowed(prior: seq<string>, answer: Option<seq<WordnetPos>>, hits: seq<string>)
    ensures Followed(MergedAnswers(prior, answer, hits))
  {
    var wn := WordnetPass(answer);
    WordnetPassPlain(answer);
    MergeFollowed(hits, wn.seen);
    FollowedConcat(wn.out, LexerPass(hits, wn.seen));
    assert FollowedAt(["Noun"], 0);
  }

  /** The WordNet pass yields neither `Conj` nor `Prep`, since WordNet offers neither. */
  lemma WordnetPassPlain(answer: Option<seq<WordnetPos>>)
    ensures "Conj" !in WordnetPass(answer).out && "Prep" !in WordnetPass(answer).out
  {
    if answer.Some? {
      MergeAt(answer.value, {}, false, "Conj");
      MergeAt(answer.value, {}, false, "Prep");
    }
  }

  /** `get_pos_values` on a word other than `""` and `"."`, in terms of what the oracles
    * offered for it. */
  lemma PosValuesMerge(word: string, prior: seq<string>, o: Oracles)
    requires word != "" && word != "."
    ensures forall v :: v !in ExpansionNames ==> multiset(PosValues(word, prior, o).value)[v] <= 1
    ensures forall v :: v !in ExpansionNames && v in Candidates(word, o) ==> v in PosValues(word, prior, o).value
    ensures forall v :: v !in ExpansionNames && v in PosValues(word, prior, o).value ==>
      v in Candidates(word, o) || PosValues(word, prior, o).value == ["Noun"]
    ensures Candidates(word, o) == [] ==> PosValues(word, prior, o).value == (if prior == [] then ["Noun"] else [])
    ensures Followed(PosValues(word, prior, o).value)
  {
    MergedAnswersUnique(prior, o.wordnet(word), LexerHits(word, o));
    if Candidates(word, o) == [] {
      MergedAnswersFallback(prior, o.wordnet(word), LexerHits(word, o));
    }
    MergedAnswersFollowed(prior, o.wordnet(word), LexerHits(word, o));
  }

  // ---------------------------------------------------------------------
  // build_pos_value_paths_from_sentence
  // ---------------------------------------------------------------------

  /** The options row kept for one word: what `get_pos_values` pushes into a fresh vector. */
  function Row(word: string, o: Oracles): seq<string>
  {
    OrEmpty(PosValues(word, [], o))
  }

  /** `sentence_pos_options_table`: one row per token of the sentence. */
  function SentenceTable(sentence: string, o: Oracles): (r: seq<seq<string>>)
    ensures |r| == |Tokens(sentence, DefaultDelim)|
  {
    var words := Tokens(sentence, DefaultDelim);
    seq(|words|, i requires 0 <= i < |words| => Row(words[i], o))
  }

  lemma PathsAreValid(table: seq<seq<string>>)
    ensures forall k :: 0 <= k < |Paths(table)| ==> IsPath(table, Paths(table)[k])
  {
    forall k | 0 <= k < |Paths(table)| ensures IsPath(table, Paths(table)[k]) {
      PathsMembership(table, Paths(table)[k]);
    }
  }

  /** `v` picks, for every word, one of that word's options. */
  predicate IsChoice(table: seq<seq<string>>, v: seq<string>)
  {
    |v| == |table| && forall i :: 0 <= i < |v| ==> v[i] in table[i]
  }

  /** The values an index path selects: `table[i][path[i]]` for every word `i`. */
  function ValuePath(table: seq<seq<string>>, path: seq<int>): (r: seq<string>)
    requires IsPath(table, path)
    ensures IsChoice(table, r)
  {
    seq(|path|, w requires 0 <= w < |path| => table[w][path[w]])
  }

  /** The value path of every index path, in the same order. */
  function ValuePaths(table: seq<seq<string>>): (r: seq<seq<string>>)
    ensures |r| == Product(table)
  {
    PathsAreValid(table);
    PathsCount(table);
    var paths := Paths(table);
    seq(|paths|, k requires 0 <= k < |paths| => ValuePath(table, paths[k]))
  }

  function IndexOf(s: seq<string>, x: string): (r: nat)
    requires x in s
    ensures r < |s| && s[r] == x
  {
    if s[0] == x then 0 else 1 + IndexOf(s[1..], x)
  }

  /** The value paths are exactly the ways of choosing one option per word. */
  lemma ValuePathsSpec(table: seq<seq<string>>, v: seq<string>)
    ensures v in ValuePaths(table) <==> IsChoice(table, v)
  {
    if IsChoice(table, v) {
      var path := seq(|v|, i requires 0 <= i < |v| => IndexOf(table[i], v[i]) as int);
      assert IsPath(table, path);
      PathsMembership(table, path);
      var k :| 0 <= k < |Paths(table)| && Paths(table)[k] == path;
      assert ValuePaths(table)[k] == ValuePath(table, path) == v;
    }
  }

  /** Every token of a sentence has at least one option, so a sentence always yields at least
    * one value path, with one value per token. */
  lemma SentencePaths(sentence: string, o: Oracles)
    ensures forall i :: 0 <= i < |SentenceTable(sentence, o)| ==> SentenceTable(sentence, o)[i] != []
    ensures |ValuePaths(SentenceTable(sentence, o))| >= 1
  {
    SentenceRows(sentence, o);
    ProductZero(SentenceTable(sentence, o));
  }

  /** Every row of a sentence's table, one per token, has at least one option. */
  lemma SentenceRows(sentence: string, o: Oracles)
    ensures forall i :: 0 <= i < |SentenceTable(sentence, o)| ==> SentenceTable(sentence, o)[i] != []
  {
    var words := Tokens(sentence, DefaultDelim);
    var table := SentenceTable(sentence, o);
    TokensFromWellFormed(sentence, DefaultDelim, 0);
    forall i | 0 <= i < |table| ensures table[i] != [] {
      assert words[i] in words;
      var r := PosValues(words[i], [], o);
      assert r.Some? && [] + r.value == r.value;
      assert table[i] == Row(words[i], o) == r.value;
    }
  }

  /** The copying loop of `build_pos_value_paths_from_sentence`: pushes `values` onto `row`
    * one by one. */
  method PushAll(row: seq<string>, values: seq<string>) returns (r: seq<string>)
    ensures r == row + values
  {
    r := row;
    var k := 0;
    while k < |values|
      invariant 0 <= k <= |values|
      invariant r == row + values[..k]
    {
      r := r + [values[k]];
      assert values[..k + 1] == values[..k] + [values[k]];
      k := k + 1;
    }
  }

  /** The table-building loop of `build_pos_value_paths_from_sentence`: a row of options per
    * word, each copied from the vector `get_pos_values` filled. */
  method BuildOptionsTable(words: seq<string>, o: Oracles) returns (table: seq<seq<string>>)
    ensures |table| == |words|
    ensures forall i :: 0 <= i < |words| ==> table[i] == Row(words[i], o)
  {
    table := seq(|words|, _ => []);
    var wordIndex := 0;
    while wordIndex < |words|
      invariant 0 <= wordIndex <= |words| && |table| == |words|
      invariant forall i :: 0 <= i < wordIndex ==> table[i] == Row(words[i], o)
      invariant forall i :: wordIndex <= i < |words| ==> table[i] == []
    {
      var posValues := new Container<string>();
      var _ := GetPosValues(words[wordIndex], posValues, o);
      var row := PushAll(table[wordIndex], posValues.contents);
      table := table[wordIndex := row];
      wordIndex := wordIndex + 1;
    }
  }

  /** The inner loop of the path translation: `table[i][path[i]]` for every word `i`. */
  method SelectValues(table: seq<seq<string>>, posIndices: seq<int>) returns (posValuePath: seq<string>)
    requires IsPath(table, posIndices)
    ensures posValuePath == ValuePath(table, posIndices)
  {
    posValuePath := [];
    var wordIndex := 0;
    while wordIndex < |posIndices|
      invariant 0 <= wordIndex <= |posIndices|
      invariant posValuePath == ValuePath(table, posIndices)[..wordIndex]
    {
      posValuePath := posValuePath + [table[wordIndex][posIndices[wordIndex]]];
      wordIndex := wordIndex + 1;
    }
  }

  /** The path translation loop: appends the value path of every index path, in order. */
  method AppendValuePaths(posValuePaths: Container<seq<string>>, table: seq<seq<string>>, posPaths: seq<seq<int>>)
    requires posPaths == Paths(table)
    modifies posValuePaths
    ensures posValuePaths.contents == old(posValuePaths.contents) + ValuePaths(table)
  {
    PathsAreValid(table);
    ghost var valuePaths := ValuePaths(table);
    var p := 0;
    while p < |posPaths|
      invariant 0 <= p <= |posPaths| == |valuePaths|
      invariant posValuePaths.contents == old(posValuePaths.contents) + valuePaths[..p]
    {
      var posValuePath := SelectValues(table, posPaths[p]);
      posValuePaths.PushBack(posValuePath);
      assert valuePaths[..p + 1] == valuePaths[..p] + [valuePaths[p]];
      p := p + 1;
    }
  }

  /** `build_pos_value_paths_from_sentence(pos_value_paths, sentence)`: tokenizes the
    * sentence, asks `get_pos_values` for every token, and appends the value path of every
    * index path of the resulting table; a null list makes it do nothing. */
  method BuildPosValuePathsFromSentence(posValuePaths: Container?<seq<string>>, sentence: string, o: Oracles)
    modifies posValuePaths
    ensures posValuePaths != null ==>
      posValuePaths.contents == old(posValuePaths.contents) + ValuePaths(SentenceTable(sentence, o))
  {
    if posValuePaths == null {
      return;
    }
    var words := Tokenize(sentence, DefaultDelim);
    var table := BuildOptionsTable(words, o);
    assert table == SentenceTable(sentence, o);
    var posPaths := new Container<seq<int>>();
    BuildPosPaths(posPaths, table);
    assert posPaths.contents == Paths(table);
    AppendValuePaths(posValuePaths, table, posPaths.contents);
  }
}
