/**
 * String utilities of libxl (libxl/src/XLangString.cpp): substring
 * replacement, tokenising, C-style escaping and XML entity escaping.
 *
 * Every routine that loops in the C++ code is a method whose result is tied to
 * a specification function; the properties the rest of the system relies on
 * (round trips, what the tokens look like) are lemmas about those functions.
 */
module XLangString {
  import opened Wrappers

  // ---------------------------------------------------------------------
  // Library primitives the C++ code calls (std::string::find and friends)
  // ---------------------------------------------------------------------

  /** `f` occurs in `s` starting at index `j`. */
  predicate OccursAt(s: string, f: string, j: nat)
  {
    j + |f| <= |s| && s[j..j + |f|] == f
  }

  /** `std::string::find(f, from)`: the first occurrence of `f` at or after `from`. */
  function FindFrom(s: string, f: string, from: nat): (r: Option<nat>)
    requires |f| > 0
    ensures r.Some? ==> from <= r.value && OccursAt(s, f, r.value)
    ensures forall j :: from <= j && (r.None? || j < r.value) ==> !OccursAt(s, f, j)
    decreases |s| - from
  {
    if from + |f| > |s| then None
    else if s[from..from + |f|] == f then Some(from)
    else FindFrom(s, f, from + 1)
  }

  /** `std::string::find_first_of(delim, from)`: the first index at or after `from` holding a delimiter. */
  function FindFirstOf(s: string, delim: string, from: nat): (r: Option<nat>)
    ensures r.Some? ==> from <= r.value < |s| && s[r.value] in delim
    ensures forall j :: from <= j < |s| && (r.None? || j < r.value) ==> s[j] !in delim
    decreases |s| - from
  {
    if from >= |s| then None
    else if s[from] in delim then Some(from)
    else FindFirstOf(s, delim, from + 1)
  }

  /** The characters a C string holds: everything before the first NUL (what `strcpy` copies). */
  function CString(s: string): (r: string)
    ensures '\0' !in r && r <= s
    ensures |r| < |s| ==> s[|r|] == '\0'
  {
    if s == [] || s[0] == '\0' then [] else [s[0]] + CString(s[1..])
  }

  /** `s` with every NUL character dropped. */
  function StripNul(s: string): string
  {
    if s == [] then [] else (if s[0] == '\0' then [] else [s[0]]) + StripNul(s[1..])
  }

  /** The concatenation of `e(c)` over the characters `c` of `s`. */
  function Encode(s: string, e: char -> string): string
  {
    if s == [] then [] else e(s[0]) + Encode(s[1..], e)
  }

  lemma {:induction false} EncodeAppend(a: string, b: string, e: char -> string)
    ensures Encode(a + b, e) == Encode(a, e) + Encode(b, e)
  {
    if a != [] {
      assert (a + b)[1..] == a[1..] + b;
      EncodeAppend(a[1..], b, e);
    } else {
      assert a + b == b;
    }
  }

  /** Encoding twice is encoding once with the composed code `e3`. */
  lemma {:induction false} EncodeCompose(s: string, e1: char -> string, e2: char -> string, e3: char -> string)
    requires forall x :: e3(x) == Encode(e1(x), e2)
    ensures Encode(Encode(s, e1), e2) == Encode(s, e3)
  {
    if s != [] {
      EncodeAppend(e1(s[0]), Encode(s[1..], e1), e2);
      EncodeCompose(s[1..], e1, e2, e3);
    }
  }

  lemma {:induction false} StripNulAppend(a: string, b: string)
    ensures StripNul(a + b) == StripNul(a) + StripNul(b)
  {
    if a != [] {
      assert (a + b)[1..] == a[1..] + b;
      StripNulAppend(a[1..], b);
    } else {
      assert a + b == b;
    }
  }

  lemma {:induction false} StripNulOfCString(s: string)
    requires '\0' !in s
    ensures StripNul(s) == s && CString(s) == s
  {
    if s != [] { StripNulOfCString(s[1..]); }
  }

  // ---------------------------------------------------------------------
  // xl::replace
  // ---------------------------------------------------------------------

  /** Leftmost, non-overlapping replacement of every occurrence of `f` in `s` by `r`;
    * text that was put in by a replacement is never searched again. */
  function Replaced(s: string, f: string, r: string): string
    requires |f| > 0
    decreases |s|
  {
    if OccursAt(s, f, 0) then r + Replaced(s[|f|..], f, r)
    else if s == [] then []
    else [s[0]] + Replaced(s[1..], f, r)
  }

  /** What `xl::replace(s, find, replace)` returns. */
  function ReplaceResult(s: string, f: string, r: string): string
  {
    if |s| == 0 || |f| == 0 then s else Replaced(s, f, r)
  }

  lemma OccursShift(s: string, f: string, j: nat)
    requires s != []
    ensures OccursAt(s[1..], f, j) <==> OccursAt(s, f, j + 1)
  {
    if j + |f| <= |s| - 1 { assert s[1..][j..j + |f|] == s[j + 1..j + 1 + |f|]; }
  }

  lemma OccursShiftBy(t: string, u: string, f: string, p: nat, j: nat)
    requires p <= |t| && u == t[p..]
    ensures OccursAt(u, f, j) <==> OccursAt(t, f, p + j)
  {
    if j + |f| <= |u| { assert u[j..j + |f|] == t[p + j..p + j + |f|]; }
  }

  /** Text before the first occurrence is kept, the occurrence is replaced, and the
    * search resumes right after it. */
  lemma {:induction false} ReplacedAtFirst(s: string, f: string, r: string, i: nat)
    requires |f| > 0 && OccursAt(s, f, i)
    requires forall j: nat :: j < i ==> !OccursAt(s, f, j)
    ensures Replaced(s, f, r) == s[..i] + r + Replaced(s[i + |f|..], f, r)
    decreases i
  {
    if i == 0 {
      assert s[..0] + r == r;
    } else {
      var t := s[1..];
      var tail := Replaced(s[i + |f|..], f, r);
      assert Replaced(s, f, r) == [s[0]] + Replaced(t, f, r) by {
        assert !OccursAt(s, f, 0);
      }
      assert Replaced(t, f, r) == t[..i - 1] + r + tail by {
        forall j: nat | j < i - 1 ensures !OccursAt(t, f, j) {
          OccursShift(s, f, j);
        }
        OccursShift(s, f, i - 1);
        ReplacedAtFirst(t, f, r, i - 1);
        assert t[i - 1 + |f|..] == s[i + |f|..];
      }
      assert [s[0]] + t[..i - 1] == s[..i];
    }
  }

  /** A string with no occurrence of `f` comes back unchanged. */
  lemma {:induction false} ReplacedNoOccurrence(s: string, f: string, r: string)
    requires |f| > 0
    requires forall j: nat :: !OccursAt(s, f, j)
    ensures Replaced(s, f, r) == s
    decreases |s|
  {
    if s != [] {
      assert !OccursAt(s, f, 0);
      forall j: nat ensures !OccursAt(s[1..], f, j) {
        OccursShift(s, f, j);
      }
      ReplacedNoOccurrence(s[1..], f, r);
    }
  }

  /** `ReplacedAtFirst` for the part of `t` that starts at the search position `p`. */
  lemma ReplacedAtFirstShifted(t: string, u: string, f: string, r: string, p: nat, i: nat)
    requires |f| > 0 && p <= |t| && u == t[p..]
    requires FindFrom(t, f, p) == Some(i)
    ensures i - p + |f| <= |u|
    ensures Replaced(u, f, r) == t[p..i] + r + Replaced(u[i - p + |f|..], f, r)
  {
    var q := i - p;
    OccursShiftBy(t, u, f, p, q);
    var tail := Replaced(u[q + |f|..], f, r);
    assert Replaced(u, f, r) == u[..q] + r + tail by {
      forall j: nat | j < q ensures !OccursAt(u, f, j) {
        OccursShiftBy(t, u, f, p, j);
      }
      ReplacedAtFirst(u, f, r, q);
    }
    assert u[..q] == t[p..i];
  }

  /** One round of the replacement loop keeps the loop's invariant. */
  lemma ReplaceStep(s: string, f: string, r: string, whole: string, t: string, p: nat, k: nat, i: nat,
                    t': string, p': nat, k': nat)
    requires |f| > 0 && p <= |t| && k <= |s| && t[p..] == s[k..]
    requires whole == t[..p] + Replaced(s[k..], f, r)
    requires FindFrom(t, f, p) == Some(i)
    requires t' == t[..i] + r + t[i + |f|..] && p' == i + |r| && k' == k + (i - p) + |f|
    ensures p' <= |t'| && k' <= |s| && t'[p'..] == s[k'..]
    ensures whole == t'[..p'] + Replaced(s[k'..], f, r)
  {
    var tail := t[i + |f|..];
    ReplaceStepRest(s, f, t, p, k, i, tail, k');
    ReplaceStepHead(t, r, i, t', p', tail);
    ReplacedAtFirstShifted(t, s[k..], f, r, p, i);
    SliceOfSlice(s, k, i - p + |f|);
    ReplaceStepJoin(t, p, i, r, Replaced(s[k'..], f, r));
  }

  /** The copy after a replacement: the text up to the match, the inserted text, and the rest. */
  lemma ReplaceStepHead(t: string, r: string, i: nat, t': string, p': nat, tail: string)
    requires i <= |t| && t' == t[..i] + r + tail && p' == i + |r|
    ensures p' <= |t'| && t'[..p'] == t[..i] + r && t'[p'..] == tail
  {
  }

  lemma SliceOfSlice(s: string, k: nat, m: nat)
    requires k + m <= |s|
    ensures s[k..][m..] == s[k + m..]
  {
  }

  lemma ReplaceStepJoin(t: string, p: nat, i: nat, r: string, rest: string)
    requires p <= i <= |t|
    ensures t[..p] + (t[p..i] + r + rest) == t[..i] + r + rest
  {
    assert t[..p] + t[p..i] == t[..i];
  }

  /** After a replacement, what is left of the copy is what is left of the input. */
  lemma ReplaceStepRest(s: string, f: string, t: string, p: nat, k: nat, i: nat, tail: string, k': nat)
    requires |f| > 0 && p <= |t| && k <= |s| && t[p..] == s[k..]
    requires FindFrom(t, f, p) == Some(i) && tail == t[i + |f|..] && k' == k + (i - p) + |f|
    ensures k' <= |s| && tail == s[k'..]
  {
    assert t[i + |f|..] == t[p..][i - p + |f|..];
  }

  /** When the search finds nothing more, the rest of the string is copied unchanged. */
  lemma ReplaceDone(s: string, f: string, r: string, t: string, p: nat, k: nat)
    requires |f| > 0 && p <= |t| && k <= |s| && t[p..] == s[k..]
    requires Replaced(s, f, r) == t[..p] + Replaced(s[k..], f, r)
    requires FindFrom(t, f, p) == None
    ensures Replaced(s, f, r) == t
  {
    var u := s[k..];
    forall j: nat ensures !OccursAt(u, f, j) {
      OccursShiftBy(t, u, f, p, j);
    }
    ReplacedNoOccurrence(u, f, r);
    assert t == t[..p] + t[p..];
  }

  /** `xl::replace`: copy `s`, then repeatedly find `find_string` from position `p`,
    * replace it and continue after the inserted text. */
  method Replace(s: string, findString: string, replaceString: string) returns (res: string)
    ensures res == ReplaceResult(s, findString, replaceString)
  {
    if |s| == 0 || |findString| == 0 {
      return s;
    }
    var t := s;
    var p: nat := 0;
    ghost var k: nat := 0;
    var q := FindFrom(t, findString, p);
    while q.Some?
      invariant p <= |t| && k <= |s| && t[p..] == s[k..]
      invariant Replaced(s, findString, replaceString) == t[..p] + Replaced(s[k..], findString, replaceString)
      invariant q == FindFrom(t, findString, p)
      decreases |s| - k
    {
      var i := q.value;
      ghost var t0, p0, k0 := t, p, k;
      t := t[..i] + replaceString + t[i + |findString|..];
      k := k + (i - p) + |findString|;
      p := i + |replaceString|;
      ReplaceStep(s, findString, replaceString, Replaced(s, findString, replaceString), t0, p0, k0, i, t, p, k);
      q := FindFrom(t, findString, p);
    }
    ReplaceDone(s, findString, replaceString, t, p, k);
    res := t;
  }

  /** Replacing a one-character pattern is a per-character encoding. */
  lemma {:induction false} ReplacedChar(s: string, c: char, w: string)
    ensures Replaced(s, [c], w) == Encode(s, x => if x == c then w else [x])
  {
    if s != [] {
      assert [c][..1] == [c];
      if s[0] == c { assert s[..1] == [c]; } else { assert s[..1] != [c]; }
      ReplacedChar(s[1..], c, w);
    }
  }

  // ---------------------------------------------------------------------
  // xl::tokenize
  // ---------------------------------------------------------------------

  /** The delimiter `xl::tokenize` uses when none is given. */
  const DefaultDelim: string := " "

  /** The pieces `xl::tokenize` collects from position `prev` on: the non-empty runs between
    * delimiters, then the tail after the last delimiter if it is non-empty. */
  function TokensFrom(s: string, delim: string, prev: nat): seq<string>
    decreases |s| - prev
  {
    match FindFirstOf(s, delim, prev)
    case Some(next) => (if next - prev != 0 then [s[prev..next]] else []) + TokensFrom(s, delim, next + 1)
    case None => if prev < |s| then [s[prev..]] else []
  }

  function Tokens(s: string, delim: string): seq<string>
  {
    TokensFrom(s, delim, 0)
  }

  lemma TokensStep(s: string, delim: string, before: seq<string>, after: seq<string>, prev: nat, n: nat)
    requires FindFirstOf(s, delim, prev) == Some(n)
    requires after == before + (if n - prev != 0 then [s[prev..n]] else [])
    ensures before + TokensFrom(s, delim, prev) == after + TokensFrom(s, delim, n + 1)
  {
    var piece := if n - prev != 0 then [s[prev..n]] else [];
    assert TokensFrom(s, delim, prev) == piece + TokensFrom(s, delim, n + 1);
    assert before + (piece + TokensFrom(s, delim, n + 1)) == (before + piece) + TokensFrom(s, delim, n + 1);
  }

  /** `xl::tokenize` */
  method Tokenize(s: string, delim: string) returns (results: seq<string>)
    ensures results == Tokens(s, delim)
  {
    results := [];
    var prev: nat := 0;
    var next := FindFirstOf(s, delim, prev);
    while next.Some?
      invariant results + TokensFrom(s, delim, prev) == Tokens(s, delim)
      invariant next == FindFirstOf(s, delim, prev)
      decreases |s| - prev
    {
      var n := next.value;
      ghost var before := results;
      if n - prev != 0 {
        results := results + [s[prev..n]];
      }
      TokensStep(s, delim, before, results, prev, n);
      prev := n + 1;
      next := FindFirstOf(s, delim, prev);
    }
    if prev < |s| {
      results := results + [s[prev..]];
    }
  }

  /** The concatenation of a list of strings. */
  function Concat(ts: seq<string>): string
  {
    if ts == [] then [] else ts[0] + Concat(ts[1..])
  }

  /** `s` with every delimiter character removed. */
  function WithoutDelims(s: string, delim: string): string
  {
    if s == [] then [] else (if s[0] in delim then [] else [s[0]]) + WithoutDelims(s[1..], delim)
  }

  lemma {:induction false} WithoutDelimsAppend(a: string, b: string, delim: string)
    ensures WithoutDelims(a + b, delim) == WithoutDelims(a, delim) + WithoutDelims(b, delim)
  {
    if a != [] {
      assert (a + b)[1..] == a[1..] + b;
      WithoutDelimsAppend(a[1..], b, delim);
    } else {
      assert a + b == b;
    }
  }

  lemma {:induction false} WithoutDelimsFree(a: string, delim: string)
    requires forall i :: 0 <= i < |a| ==> a[i] !in delim
    ensures WithoutDelims(a, delim) == a
  {
    if a != [] { WithoutDelimsFree(a[1..], delim); }
  }

  /** Every token is non-empty and holds no delimiter character. */
  lemma {:induction false} TokensFromWellFormed(s: string, delim: string, prev: nat)
    ensures forall t :: t in TokensFrom(s, delim, prev) ==> t != [] && forall i :: 0 <= i < |t| ==> t[i] !in delim
    decreases |s| - prev
  {
    match FindFirstOf(s, delim, prev)
    case Some(next) =>
      TokensFromWellFormed(s, delim, next + 1);
      if next - prev != 0 {
        forall i | 0 <= i < next - prev ensures s[prev..next][i] !in delim {
          assert s[prev..next][i] == s[prev + i];
        }
      }
    case None =>
      if prev < |s| {
        forall i | 0 <= i < |s| - prev ensures s[prev..][i] !in delim {
          assert s[prev..][i] == s[prev + i];
        }
      }
  }

  /** The text up to the next delimiter, with the delimiter dropped, begins the delimiter-free text. */
  lemma WithoutDelimsStep(s: string, delim: string, prev: nat, next: nat)
    requires FindFirstOf(s, delim, prev) == Some(next)
    ensures WithoutDelims(s[prev..], delim) == s[prev..next] + WithoutDelims(s[next + 1..], delim)
  {
    var piece, d, rest := s[prev..next], [s[next]], s[next + 1..];
    forall i | 0 <= i < |piece| ensures piece[i] !in delim { assert piece[i] == s[prev + i]; }
    assert WithoutDelims(piece, delim) == piece by {
      WithoutDelimsFree(piece, delim);
    }
    assert WithoutDelims(piece + d, delim) == piece by {
      WithoutDelimsAppend(piece, d, delim);
      assert WithoutDelims(d, delim) == [] + WithoutDelims([], delim);
    }
    assert s[prev..] == (piece + d) + rest;
    WithoutDelimsAppend(piece + d, rest, delim);
  }

  lemma ConcatTokensStep(s: string, delim: string, prev: nat, next: nat)
    requires FindFirstOf(s, delim, prev) == Some(next)
    ensures Concat(TokensFrom(s, delim, prev)) == s[prev..next] + Concat(TokensFrom(s, delim, next + 1))
  {
    var rest := TokensFrom(s, delim, next + 1);
    if next - prev != 0 {
      assert ([s[prev..next]] + rest)[1..] == rest;
    } else {
      assert [] + rest == rest;
    }
  }

  /** The tokens, put back together, are the text from `prev` on without its delimiters:
    * nothing is lost, nothing is added, and the source order is kept. */
  lemma {:induction false} TokensFromCover(s: string, delim: string, prev: nat)
    requires prev <= |s|
    ensures Concat(TokensFrom(s, delim, prev)) == WithoutDelims(s[prev..], delim)
    decreases |s| - prev
  {
    match FindFirstOf(s, delim, prev)
    case Some(next) =>
      TokensFromCover(s, delim, next + 1);
      ConcatTokensStep(s, delim, prev, next);
      WithoutDelimsStep(s, delim, prev, next);
    case None =>
      if prev < |s| {
        forall i | 0 <= i < |s| - prev ensures s[prev..][i] !in delim { assert s[prev..][i] == s[prev + i]; }
        WithoutDelimsFree(s[prev..], delim);
        assert [s[prev..]][1..] == [];
      }
  }

  /** A string made only of delimiters yields no token at all. */
  lemma AllDelimsNoTokens(s: string, delim: string)
    requires forall i :: 0 <= i < |s| ==> s[i] in delim
    ensures Tokens(s, delim) == []
  {
    TokensFromWellFormed(s, delim, 0);
    TokensFromCover(s, delim, 0);
    AllDelimsRemoved(s, delim);
    ConcatLength(Tokens(s, delim));
  }

  lemma {:induction false} ConcatLength(ts: seq<string>)
    requires forall t :: t in ts ==> t != []
    ensures |Concat(ts)| >= |ts|
  {
    if ts != [] {
      assert ts[0] in ts;
      assert forall t :: t in ts[1..] ==> t in ts;
      ConcatLength(ts[1..]);
    }
  }

  lemma {:induction false} AllDelimsRemoved(s: string, delim: string)
    requires forall i :: 0 <= i < |s| ==> s[i] in delim
    ensures WithoutDelims(s, delim) == []
  {
    if s != [] { AllDelimsRemoved(s[1..], delim); }
  }

  // ---------------------------------------------------------------------
  // xl::escape / xl::unescape (C-style backslash escapes)
  // ---------------------------------------------------------------------

  /** `xl::escape(char)`: control characters, quotes and backslash become two-character
    * escapes; NUL gives the empty string (the one-character buffer starts with the NUL itself). */
  function EscapeChar(c: char): (r: string)
    ensures r == [] <==> c == '\0'
    ensures |r| <= 2 && '\0' !in r
    ensures |r| == 2 <==> c in "\r\n\t\"'\\"
    ensures |r| == 2 ==> r[0] == '\\' && UnescapeChar(r[1]) == c
    ensures |r| == 1 ==> r == [c]
  {
    match c
    case '\r' => "\\r"
    case '\n' => "\\n"
    case '\t' => "\\t"
    case '\"' => "\\\""
    case '\'' => "\\'"
    case '\\' => "\\\\"
    case _ => if c == '\0' then "" else [c]
  }

  /** `xl::unescape(char)`: the character an escape letter stands for. */
  function UnescapeChar(c: char): (r: char)
    ensures r == '\0' <==> c == '\0'
    ensures c !in "rnt" ==> r == c
  {
    match c
    case 'r' => '\r'
    case 'n' => '\n'
    case 't' => '\t'
    case _ => c
  }

  /** What `xl::escape(string)` returns. */
  function Escaped(s: string): string
  {
    Encode(s, EscapeChar)
  }

  /** `xl::escape(string)` */
  method Escape(s: string) returns (r: string)
    ensures r == Escaped(s)
  {
    r := [];
    var i := 0;
    while i < |s|
      invariant 0 <= i <= |s|
      invariant r == Encode(s[..i], EscapeChar)
    {
      assert s[..i + 1] == s[..i] + [s[i]];
      EncodeAppend(s[..i], [s[i]], EscapeChar);
      r := r + EscapeChar(s[i]);
      i := i + 1;
    }
    assert s[..i] == s;
  }

  /** The unescaping loop over a buffer, with `pending` set right after a lone backslash.
    * A backslash at the very end is dropped. */
  function UnescapeRun(s: string, pending: bool): string
  {
    if s == [] then []
    else if !pending && s[0] == '\\' then UnescapeRun(s[1..], true)
    else if pending then [UnescapeChar(s[0])] + UnescapeRun(s[1..], false)
    else [s[0]] + UnescapeRun(s[1..], false)
  }

  /** What `xl::unescape(string)` returns: only the part before the first NUL is read. */
  function Unescaped(s: string): string
  {
    UnescapeRun(CString(s), false)
  }

  /** `xl::unescape(string)` */
  method Unescape(s: string) returns (r: string)
    ensures r == Unescaped(s)
  {
    var buf := CString(s);
    r := [];
    var pendingEscape := false;
    var i := 0;
    while i < |buf|
      invariant 0 <= i <= |buf|
      invariant r + UnescapeRun(buf[i..], pendingEscape) == Unescaped(s)
    {
      assert buf[i..][1..] == buf[i + 1..];
      if !pendingEscape && buf[i] == '\\' {
        pendingEscape := true;
      } else if pendingEscape {
        r := r + [UnescapeChar(buf[i])];
        pendingEscape := false;
      } else {
        r := r + [buf[i]];
      }
      i := i + 1;
    }
  }

  /** `g` is a faithful escape of `x`: unescaping it gives back `x` (nothing, for NUL). */
  predicate GoodEscape(g: string, x: char)
  {
    (x == '\0' && g == [])
    || (x != '\0' && x != '\\' && g == [x])
    || (x != '\0' && |g| == 2 && g[0] == '\\' && g[1] != '\0' && UnescapeChar(g[1]) == x)
  }

  lemma UnescapeChunk(g: string, x: char, rest: string)
    requires GoodEscape(g, x)
    ensures UnescapeRun(g + rest, false) == StripNul([x]) + UnescapeRun(rest, false)
    ensures '\0' !in g
  {
    assert StripNul([x]) == (if x == '\0' then [] else [x]) + StripNul([]);
    if |g| == 2 {
      assert (g + rest)[1..] == [g[1]] + rest;
      assert ([g[1]] + rest)[1..] == rest;
    } else if |g| == 1 {
      assert (g + rest)[1..] == rest;
    } else {
      assert g + rest == rest;
    }
  }

  lemma {:induction false} UnescapeEncoded(s: string, e: char -> string, t: string)
    requires forall x :: GoodEscape(e(x), x)
    ensures UnescapeRun(Encode(s, e) + t, false) == StripNul(s) + UnescapeRun(t, false)
  {
    if s != [] {
      var x := s[0];
      var enc := Encode(s[1..], e);
      EncodeCons(s, e, t);
      assert GoodEscape(e(x), x);
      UnescapeChunk(e(x), x, enc + t);
      UnescapeEncoded(s[1..], e, t);
      StripNulCons(s);
      Assoc(StripNul([x]), StripNul(s[1..]), UnescapeRun(t, false));
    } else {
      assert Encode(s, e) + t == t;
    }
  }

  lemma EncodeCons(s: string, e: char -> string, t: string)
    requires s != []
    ensures Encode(s, e) + t == e(s[0]) + (Encode(s[1..], e) + t)
  {
  }

  lemma StripNulCons(s: string)
    requires s != []
    ensures StripNul(s) == StripNul([s[0]]) + StripNul(s[1..])
  {
    StripNulAppend([s[0]], s[1..]);
    assert [s[0]] + s[1..] == s;
  }

  /** An encoding whose every chunk is a good escape holds no NUL. */
  lemma {:induction false} EncodeNoNul(s: string, e: char -> string)
    requires forall x :: GoodEscape(e(x), x)
    ensures '\0' !in Encode(s, e)
  {
    if s != [] {
      EncodeNoNul(s[1..], e);
      UnescapeChunk(e(s[0]), s[0], []);
    }
  }

  /** Unescaping undoes escaping for every string, except that NUL characters do not survive. */
  lemma EscapeRoundTrip(s: string)
    ensures Unescaped(Escaped(s)) == StripNul(s)
  {
    forall x ensures GoodEscape(EscapeChar(x), x) { }
    UnescapeEncoded(s, EscapeChar, []);
    EncodeNoNul(s, EscapeChar);
    assert Escaped(s) + [] == Escaped(s);
    StripNulOfCString(Escaped(s));
    assert StripNul(s) + [] == StripNul(s);
  }

  /** For NUL-free strings the round trip is exact. */
  lemma EscapeRoundTripNulFree(s: string)
    requires '\0' !in s
    ensures Unescaped(Escaped(s)) == s
  {
    EscapeRoundTrip(s);
    StripNulOfCString(s);
  }

  // ---------------------------------------------------------------------
  // xl::escape_xml / xl::unescape_xml
  // ---------------------------------------------------------------------

  /** What `xl::escape_xml` returns: entity replacement (`&` first) followed by `xl::escape`. */
  function XmlEscaped(s: string): string
  {
    var s1 := ReplaceResult(s, "&", "&amp;");
    var s2 := ReplaceResult(s1, "\"", "&quot;");
    var s3 := ReplaceResult(s2, "'", "&apos;");
    var s4 := ReplaceResult(s3, "<", "&lt;");
    var s5 := ReplaceResult(s4, ">", "&gt;");
    Escaped(s5)
  }

  /** What `xl::unescape_xml` returns: entity decoding (`&amp;` last) followed by `xl::unescape`. */
  function XmlUnescaped(s: string): string
  {
    var s1 := ReplaceResult(s, "&quot;", "\"");
    var s2 := ReplaceResult(s1, "&apos;", "'");
    var s3 := ReplaceResult(s2, "&lt;", "<");
    var s4 := ReplaceResult(s3, "&gt;", ">");
    var s5 := ReplaceResult(s4, "&amp;", "&");
    Unescaped(s5)
  }

  /** `xl::escape_xml` */
  method EscapeXml(s: string) returns (r: string)
    ensures r == XmlEscaped(s)
  {
    var t := s;
    t := Replace(t, "&", "&amp;");
    t := Replace(t, "\"", "&quot;");
    t := Replace(t, "'", "&apos;");
    t := Replace(t, "<", "&lt;");
    t := Replace(t, ">", "&gt;");
    r := Escape(t);
  }

  /** `xl::unescape_xml` */
  method UnescapeXml(s: string) returns (r: string)
    ensures r == XmlUnescaped(s)
  {
    var t := s;
    t := Replace(t, "&quot;", "\"");
    t := Replace(t, "&apos;", "'");
    t := Replace(t, "&lt;", "<");
    t := Replace(t, "&gt;", ">");
    t := Replace(t, "&amp;", "&");
    r := Unescape(t);
  }

  /** An XML entity reference: `&`, a name without `&` or `;`, then `;`. */
  predicate IsEntity(w: string)
  {
    |w| >= 2 && w[0] == '&' && w[|w| - 1] == ';'
    && forall i :: 0 < i < |w| - 1 ==> w[i] != '&' && w[i] != ';'
  }

  /** Each character's code is either an entity or free of `&`. */
  predicate Clean(e: char -> string)
  {
    forall x :: IsEntity(e(x)) || '&' !in e(x)
  }

  lemma SemicolonOnlyLast(w: string, i: nat)
    requires IsEntity(w) && 0 < i < |w| && w[i] == ';'
    ensures i == |w| - 1
  {
  }

  /** An entity can only match at the start of another entity if the two are equal. */
  lemma EntityPrefix(pat: string, w: string, rest: string)
    requires IsEntity(pat) && IsEntity(w)
    ensures OccursAt(w + rest, pat, 0) ==> pat == w
  {
    if OccursAt(w + rest, pat, 0) { EntityPrefixMatch(pat, w, rest); }
  }

  lemma EntityPrefixMatch(pat: string, w: string, rest: string)
    requires IsEntity(pat) && IsEntity(w)
    requires OccursAt(w + rest, pat, 0)
    ensures pat == w
  {
    var t := w + rest;
    assert t[..|pat|] == pat;
    var p := if |pat| <= |w| then |pat| - 1 else |w| - 1;
    assert pat[p] == t[p] == w[p];
    assert pat[p] == ';';
    SemicolonOnlyLast(w, p);
    SemicolonOnlyLast(pat, p);
    assert pat == t[..|w|] == w;
  }

  /** Text without `&` cannot start an occurrence of an entity, so replacement steps over it. */
  lemma {:induction false} ReplacedSkips(u: string, v: string, pat: string, r: string)
    requires |pat| > 0 && pat[0] !in u
    ensures Replaced(u + v, pat, r) == u + Replaced(v, pat, r)
  {
    if u != [] {
      assert (u + v)[0] == u[0] != pat[0];
      assert (u + v)[1..] == u[1..] + v;
      ReplacedSkips(u[1..], v, pat, r);
    } else {
      assert u + v == v;
    }
  }

  /** Replacement consumes a leading occurrence of the pattern. */
  lemma ReplacedLeading(pat: string, rest: string, r: string)
    requires |pat| > 0
    ensures Replaced(pat + rest, pat, r) == r + Replaced(rest, pat, r)
  {
    assert (pat + rest)[0..|pat|] == pat;
    assert (pat + rest)[|pat|..] == rest;
  }

  /** Replacement steps over an entity other than the pattern. */
  lemma ReplacedPastEntity(w: string, rest: string, pat: string, r: string)
    requires IsEntity(pat) && IsEntity(w) && w != pat
    ensures Replaced(w + rest, pat, r) == w + Replaced(rest, pat, r)
  {
    EntityPrefix(pat, w, rest);
    assert w + rest == [w[0]] + (w[1..] + rest);
    assert '&' !in w[1..] by {
      forall i | 0 <= i < |w| - 1 ensures w[1..][i] != '&' { assert w[1..][i] == w[i + 1]; }
    }
    ReplacedSkips(w[1..], rest, pat, r);
    assert [w[0]] + w[1..] == w;
  }

  /** Decoding one entity over an encoded string decodes exactly the characters encoded as it:
    * `e2` is `e1` with the code `pat` turned into `r`. */
  lemma {:induction false} ReplacedEncoded(s: string, e1: char -> string, e2: char -> string, pat: string, r: string)
    requires IsEntity(pat) && Clean(e1)
    requires forall x :: e2(x) == if e1(x) == pat then r else e1(x)
    ensures Replaced(Encode(s, e1), pat, r) == Encode(s, e2)
  {
    if s != [] {
      var w := e1(s[0]);
      var rest := Encode(s[1..], e1);
      ReplacedEncoded(s[1..], e1, e2, pat, r);
      assert Encode(s, e1) == w + rest;
      if w == pat {
        ReplacedLeading(pat, rest, r);
      } else if IsEntity(w) {
        ReplacedPastEntity(w, rest, pat, r);
      } else {
        ReplacedSkips(w, rest, pat, r);
      }
    }
  }

  /** Replacing a character that only ever appears as its own one-character code. */
  lemma {:induction false} ReplacedCharEncoded(s: string, e1: char -> string, e2: char -> string, c: char, r: string)
    requires forall x :: if x == c then e1(x) == [c] else c !in e1(x)
    requires forall x :: e2(x) == if x == c then r else e1(x)
    ensures Replaced(Encode(s, e1), [c], r) == Encode(s, e2)
  {
    if s != [] {
      var w := e1(s[0]);
      var rest := Encode(s[1..], e1);
      ReplacedCharEncoded(s[1..], e1, e2, c, r);
      assert Encode(s, e1) == w + rest;
      if s[0] == c {
        assert w == [c];
        assert (w + rest)[0..1] == [c];
        assert (w + rest)[1..] == rest;
      } else {
        ReplacedSkips(w, rest, [c], r);
      }
    }
  }

  function Single(x: char): string { [x] }

  lemma {:induction false} EncodeSingle(s: string)
    ensures Encode(s, Single) == s
  {
    if s != [] { EncodeSingle(s[1..]); }
  }

  /** The code after each of the five entity replacements of `xl::escape_xml`. */
  function XmlEsc1(x: char): string { if x == '&' then "&amp;" else [x] }
  function XmlEsc2(x: char): string { if x == '\"' then "&quot;" else XmlEsc1(x) }
  function XmlEsc3(x: char): string { if x == '\'' then "&apos;" else XmlEsc2(x) }
  function XmlEsc4(x: char): string { if x == '<' then "&lt;" else XmlEsc3(x) }
  function XmlEsc5(x: char): string { if x == '>' then "&gt;" else XmlEsc4(x) }

  /** The code `xl::escape_xml` applies to each character. */
  function XmlEscapeChar(c: char): string
  {
    match c
    case '&' => "&amp;"
    case '\"' => "&quot;"
    case '\'' => "&apos;"
    case '<' => "&lt;"
    case '>' => "&gt;"
    case _ => EscapeChar(c)
  }

  lemma XmlEscStep1(s: string)
    ensures ReplaceResult(s, "&", "&amp;") == Encode(s, XmlEsc1)
  {
    EncodeSingle(s);
    ReplacedCharEncoded(s, Single, XmlEsc1, '&', "&amp;");
  }

  lemma XmlEscStep2(s: string)
    ensures ReplaceResult(Encode(s, XmlEsc1), "\"", "&quot;") == Encode(s, XmlEsc2)
  {
    ReplacedCharEncoded(s, XmlEsc1, XmlEsc2, '\"', "&quot;");
  }

  lemma XmlEscStep3(s: string)
    ensures ReplaceResult(Encode(s, XmlEsc2), "'", "&apos;") == Encode(s, XmlEsc3)
  {
    ReplacedCharEncoded(s, XmlEsc2, XmlEsc3, '\'', "&apos;");
  }

  lemma XmlEscStep4(s: string)
    ensures ReplaceResult(Encode(s, XmlEsc3), "<", "&lt;") == Encode(s, XmlEsc4)
  {
    ReplacedCharEncoded(s, XmlEsc3, XmlEsc4, '<', "&lt;");
  }

  lemma XmlEscStep5(s: string)
    ensures ReplaceResult(Encode(s, XmlEsc4), ">", "&gt;") == Encode(s, XmlEsc5)
  {
    ReplacedCharEncoded(s, XmlEsc4, XmlEsc5, '>', "&gt;");
  }

  lemma XmlEscapeCharComposed(x: char)
    ensures Encode(XmlEsc5(x), EscapeChar) == XmlEscapeChar(x)
  {
    if x in "&\"'<>" {
      EncodePlain(XmlEsc5(x));
    } else {
      assert XmlEsc5(x) == [x];
      assert Encode([x], EscapeChar) == EscapeChar(x) + Encode([], EscapeChar);
    }
  }

  /** `xl::escape_xml` is the per-character code `XmlEscapeChar`. */
  lemma XmlEscapedIsEncode(s: string)
    ensures XmlEscaped(s) == Encode(s, XmlEscapeChar)
  {
    assert XmlEscaped(s) == Escaped(Encode(s, XmlEsc5)) by {
      XmlEscStep1(s);
      XmlEscStep2(s);
      XmlEscStep3(s);
      XmlEscStep4(s);
      XmlEscStep5(s);
    }
    forall x ensures XmlEscapeChar(x) == Encode(XmlEsc5(x), EscapeChar) {
      XmlEscapeCharComposed(x);
    }
    EncodeCompose(s, XmlEsc5, EscapeChar, XmlEscapeChar);
  }

  /** `xl::escape` leaves text without special characters alone. */
  lemma {:induction false} EncodePlain(u: string)
    requires forall i :: 0 <= i < |u| ==> u[i] !in "\r\n\t\"'\\\0"
    ensures Encode(u, EscapeChar) == u
  {
    if u != [] {
      assert u[0] !in "\r\n\t\"'\\\0";
      EncodePlain(u[1..]);
    }
  }

  lemma XmlEscapeCharSafe(x: char)
    ensures forall i :: 0 <= i < |XmlEscapeChar(x)| ==> XmlEscapeChar(x)[i] !in "<>\"'\0"
  {
    if x !in "&\"'<>" {
      assert XmlEscapeChar(x) == EscapeChar(x);
    }
  }

  /** After `xl::escape_xml` the text holds no raw `<`, `>`, `"` or `'`, and no NUL. */
  lemma XmlEscapedIsSafe(s: string)
    ensures forall i :: 0 <= i < |XmlEscaped(s)| ==> XmlEscaped(s)[i] !in "<>\"'\0"
  {
    XmlEscapedIsEncode(s);
    forall x, i | 0 <= i < |XmlEscapeChar(x)| ensures XmlEscapeChar(x)[i] !in "<>\"'\0" {
      XmlEscapeCharSafe(x);
    }
    EncodeAvoids(s, XmlEscapeChar, "<>\"'\0");
  }

  lemma {:induction false} EncodeAvoids(s: string, e: char -> string, bad: string)
    requires forall x, i :: 0 <= i < |e(x)| ==> e(x)[i] !in bad
    ensures forall i :: 0 <= i < |Encode(s, e)| ==> Encode(s, e)[i] !in bad
  {
    if s != [] {
      EncodeAvoids(s[1..], e, bad);
      var t := Encode(s, e);
      assert t == e(s[0]) + Encode(s[1..], e);
      forall i | 0 <= i < |t| ensures t[i] !in bad {
        if i < |e(s[0])| { assert t[i] == e(s[0])[i]; }
        else { assert t[i] == Encode(s[1..], e)[i - |e(s[0])|]; }
      }
    }
  }

  /** The code after each of the five entity decodings of `xl::unescape_xml`, applied to
    * the output of `xl::escape_xml`. */
  function XmlDec1(x: char): string { if x == '\"' then "\"" else XmlEscapeChar(x) }
  function XmlDec2(x: char): string { if x == '\'' then "'" else XmlDec1(x) }
  function XmlDec3(x: char): string { if x == '<' then "<" else XmlDec2(x) }
  function XmlDec4(x: char): string { if x == '>' then ">" else XmlDec3(x) }
  function XmlDec5(x: char): string { if x == '&' then "&" else XmlDec4(x) }

  lemma XmlEscapeCharClean()
    ensures Clean(XmlEscapeChar)
  {
    forall x ensures IsEntity(XmlEscapeChar(x)) || '&' !in XmlEscapeChar(x) {
      if x !in "&\"'<>" { assert XmlEscapeChar(x) == EscapeChar(x); }
    }
  }

  lemma XmlDecStep1(s: string)
    ensures ReplaceResult(Encode(s, XmlEscapeChar), "&quot;", "\"") == Encode(s, XmlDec1)
  {
    XmlEscapeCharClean();
    forall x ensures XmlDec1(x) == if XmlEscapeChar(x) == "&quot;" then "\"" else XmlEscapeChar(x) {
      if x !in "&\"'<>" { assert XmlEscapeChar(x) == EscapeChar(x); }
    }
    ReplacedEncoded(s, XmlEscapeChar, XmlDec1, "&quot;", "\"");
  }

  lemma XmlDecStep2(s: string)
    ensures ReplaceResult(Encode(s, XmlDec1), "&apos;", "'") == Encode(s, XmlDec2)
  {
    forall x ensures IsEntity(XmlDec1(x)) || '&' !in XmlDec1(x) {
      if x !in "&\"'<>" { assert XmlDec1(x) == EscapeChar(x); }
    }
    forall x ensures XmlDec2(x) == if XmlDec1(x) == "&apos;" then "'" else XmlDec1(x) {
      if x !in "&\"'<>" { assert XmlDec1(x) == EscapeChar(x); }
    }
    ReplacedEncoded(s, XmlDec1, XmlDec2, "&apos;", "'");
  }

  lemma XmlDecStep3(s: string)
    ensures ReplaceResult(Encode(s, XmlDec2), "&lt;", "<") == Encode(s, XmlDec3)
  {
    forall x ensures IsEntity(XmlDec2(x)) || '&' !in XmlDec2(x) {
      if x !in "&\"'<>" { assert XmlDec2(x) == EscapeChar(x); }
    }
    forall x ensures XmlDec3(x) == if XmlDec2(x) == "&lt;" then "<" else XmlDec2(x) {
      if x !in "&\"'<>" { assert XmlDec2(x) == EscapeChar(x); }
    }
    ReplacedEncoded(s, XmlDec2, XmlDec3, "&lt;", "<");
  }

  lemma XmlDecStep4(s: string)
    ensures ReplaceResult(Encode(s, XmlDec3), "&gt;", ">") == Encode(s, XmlDec4)
  {
    forall x ensures IsEntity(XmlDec3(x)) || '&' !in XmlDec3(x) {
      if x !in "&\"'<>" { assert XmlDec3(x) == EscapeChar(x); }
    }
    forall x ensures XmlDec4(x) == if XmlDec3(x) == "&gt;" then ">" else XmlDec3(x) {
      if x !in "&\"'<>" { assert XmlDec3(x) == EscapeChar(x); }
    }
    ReplacedEncoded(s, XmlDec3, XmlDec4, "&gt;", ">");
  }

  lemma XmlDecStep5(s: string)
    ensures ReplaceResult(Encode(s, XmlDec4), "&amp;", "&") == Encode(s, XmlDec5)
  {
    forall x ensures IsEntity(XmlDec4(x)) || '&' !in XmlDec4(x) {
      if x !in "&\"'<>" { assert XmlDec4(x) == EscapeChar(x); }
    }
    forall x ensures XmlDec5(x) == if XmlDec4(x) == "&amp;" then "&" else XmlDec4(x) {
      if x !in "&\"'<>" { assert XmlDec4(x) == EscapeChar(x); }
    }
    ReplacedEncoded(s, XmlDec4, XmlDec5, "&amp;", "&");
  }

  lemma XmlDecoded(s: string)
    ensures XmlUnescaped(Encode(s, XmlEscapeChar)) == Unescaped(Encode(s, XmlDec5))
  {
    XmlDecStep1(s);
    XmlDecStep2(s);
    XmlDecStep3(s);
    XmlDecStep4(s);
    XmlDecStep5(s);
  }

  lemma XmlDec5Good(x: char)
    ensures GoodEscape(XmlDec5(x), x)
  {
    if x !in "&\"'<>" { assert XmlDec5(x) == EscapeChar(x); }
  }

  /** `xl::unescape_xml` undoes `xl::escape_xml` for every string, except that NUL characters
    * do not survive; for NUL-free strings the round trip is exact. */
  lemma XmlRoundTrip(s: string)
    ensures XmlUnescaped(XmlEscaped(s)) == StripNul(s)
  {
    XmlEscapedIsEncode(s);
    XmlDecoded(s);
    var u := Encode(s, XmlDec5);
    forall x ensures GoodEscape(XmlDec5(x), x) {
      XmlDec5Good(x);
    }
    UnescapeEncoded(s, XmlDec5, []);
    EncodeNoNul(s, XmlDec5);
    assert u + [] == u;
    StripNulOfCString(u);
    assert StripNul(s) + [] == StripNul(s);
  }

  lemma XmlRoundTripNulFree(s: string)
    requires '\0' !in s
    ensures XmlUnescaped(XmlEscaped(s)) == s
  {
    XmlRoundTrip(s);
    StripNulOfCString(s);
  }
}
