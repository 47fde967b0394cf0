# XLang tree framework — a Dafny model

This project models the core of the NatLang/XLang tree framework:
- `libxl`'s node, visitor, printer, layout, string, allocator and tree-context code;
- the node implementation of the `app` (`app/src/XLangNode.cpp`);
- the part-of-speech path enumerator (`app/src/TryAllParses.cpp`).

It proves properties of that model with the Dafny verifier. Each source file becomes one Dafny module:

| module | file | models |
|---|---|---|
| `Wrappers` | `wrappers.dfy` | `Option`, and two small sequence lemmas |
| `XLangAlloc` | `alloc.dfy` | `Allocator`: the tracked-chunk map, the byte counter, and destructor callbacks shown as an event log; the field `next` stands for the platform `malloc` and is the address the next allocation gets |
| `XLangNodeIFace` | `node_iface.dfy` | the six node kinds, `is_same_type`, `is_root`, and the `TermInternalType`/`TermType` mapping |
| `XLangTreeContext` | `tree_context.dfy` | `TreeContext`: the root, the allocator, and string interning with a content-ordered set |
| `XLangString` | `xlstring.dfy` | `replace`, `tokenize`, C-style `escape`/`unescape`, and XML `escape_xml`/`unescape_xml` |
| `XLangNode` | `node.dfy` | nodes in an arena (`NodeStore`); the flattening constructor, the vector mutators, `compare`, `find`, `find_if`, `clone`, `index`, `detach` and `original` |
| `XLangPrinter` | `printer.dfy` | the text forms of the Lisp, XML and DOT printers, and of the annotators |
| `XLangVisitor` | `visitor.dfy` | `VisitorDFS` (frame stack of `(symbol, cursor)`, `dispatch_visit`, the filtered and unfiltered `visit`, and the four concrete visitors as a `Role`) |
| `XLangVisitorBFS` | `bfs.dfy` | `VisitorBFS`'s stack of queues, and `TreeAnnotatorBFS` |
| `XLangVisitorDFS` | `visitor_dfs.dfy` | the older DFS variant in `libxl/src/XLangVisitorDFS.cpp`, with its int-cursor stack and the `-1` "exhausted" mark |
| `XLangMVCView` | `mvc_view.dfy` | `annotate_tree`, and the ASCII box-and-arrow layout (`exNode`, `graphInit`, `graphBox`, `graphDrawBox`, `graphDrawArrow`, `graphFinish`, `graphTest`) over a 200×200 grid |
| `XLangMVCModel` | `mvc_model.dfy` | `make_symbol`, `make_term`, `_make_term_from_typename`, and the conversion of an abstract XML document to an AST (`_make_ast_from_ticpp`, `make_ast`) |
| `TryAllParses` | `try_all_parses.dfy` | `build_pos_paths_from_pos_options`, the `get_pos_values` merge, and `build_pos_value_paths_from_sentence` |

Modelling choices:
- **Nodes live in an arena.** A node is a record in a `map` from node ids to objects. The id is the node's address. A symbol's children are a `seq<Option<NodeId>>`, so null slots are kept.
- **Mutation is imperative.** Every mutator is a method of the `NodeStore` class. It states the new child vector and the new parent pointers, and it keeps the arena valid: every node is allocated and every pointer stays inside the arena.
- **Parent consistency holds only under conditions.** Consistency means every non-null child's parent is its container. The code does not check for itself when that is kept, and the model states each case:
  - `push_back`, `push_front` and `insert_after` keep it when the added node has no parent and is not the symbol itself.
  - `replace_first` keeps it when the replacement is null, is the replaced node, or is such a parentless node.
  - `remove_first` and `detach` always keep it.
  - `erase(i)` keeps it when no other slot holds the erased node. When one does, that slot keeps a node whose parent is now null, exactly as in the C++ code (`EraseRepeatedOrphans`).
- **Recursion is measured by rank.** Structural recursion over the graph (`compare`, `find`, `clone`, the visitors, the layout) uses a ghost rank map. In it, every child ranks below its parent, which rules out cycles.
- **Visitors are state machines.** Each is a class whose frame stack or queue stack is a field. Each of its methods is proved against a function of the stack and the store, and the traversal order is proved about that function.
- **Printer output is text.** Output to `std::cout` is an appended `string` field.
- **Outside services are parameters.** Lexer-id names, `atoi`/`atof`, floating-point printing, `uid()`, WordNet and the lexer are given to the model as oracle functions.

In four places the code does something its names do not suggest; the model follows the code:
- `remove_first` and `replace_first` act on every occurrence from the first match onward. This is because they call `std::remove` and `std::replace`.
- `Allocator::_free()` runs every destructor and empties the map, but it does not reset the byte count.
- `escape('\0')` gives the empty string.
- `unescape(std::string)` stops at the first NUL, because it copies through `strcpy`.

## Model

| member | source | states |
|---|---|---|
| XLangAlloc.Allocator.constructor | libxl/src/XLangAlloc.cpp:47-50 | a new allocator tracks no chunk, counts zero bytes, and its count agrees with its (empty) map |
| XLangAlloc.Allocator.Malloc | libxl/src/XLangAlloc.cpp:56-63 | the block gets an address not tracked before; the map gains exactly that chunk with its size and destructor flag; the byte count rises by the size; a count that agreed with the map still agrees |
| XLangAlloc.Allocator.Free | libxl/src/XLangAlloc.cpp:65-75 | a tracked block leaves the map, its size leaves the count, and its destructor callback runs exactly when one was registered; a count that agreed with the map still agrees |
| XLangAlloc.Allocator.FreeAll | libxl/src/XLangAlloc.cpp:77-82 | every chunk with a destructor callback has it run, in ascending address order, the map ends empty, and the byte count is not reset, so it matches the tracked sizes (now zero) only if it was already zero |
| XLangAlloc.Allocator.Dispose | libxl/src/XLangAlloc.cpp:51-54 | the destructor does what `_free()` does |
| XLangAlloc.DtorsBelowSpec | libxl/src/XLangAlloc.cpp:77-82 | the destructor callbacks `_free()` runs are exactly those of tracked chunks that registered one, each once, in strictly ascending address order |
| XLangNodeIFace.TermInternalType | libxl/include/node/XLangNodeIFace.h:77-84 | the payload type of a kind maps back to that kind under `TermType` |
| XLangNodeIFace.TermTypesInverse | libxl/include/node/XLangNodeIFace.h:77-93 | `TermInternalType` and `TermType` are inverse in both directions |
| XLangNodeIFace.IsSameTypeEquivalence | libxl/include/node/XLangNodeIFace.h:67-70 | restates the definition of `is_same_type` (kind and lexer id equal) as an equivalence: reflexive, symmetric and transitive |
| XLangTreeContext.StrPtrEquivalence | libxl/include/XLangTreeContext.h:44-51 | the comparator is irreflexive, and two pointers are equivalent under it exactly when their strings are equal, so the set holds one pointer per content |
| XLangTreeContext.LexLessTransitive | libxl/include/XLangTreeContext.h:46-49 | string order is transitive |
| XLangTreeContext.LexLessTotal | libxl/include/XLangTreeContext.h:46-49 | two different strings are ordered one way or the other |
| XLangTreeContext.TreeContext.constructor | libxl/include/XLangTreeContext.h:32-34 | a new context keeps the given allocator, has no root and no interned string |
| XLangTreeContext.TreeContext.SetRoot | libxl/include/XLangTreeContext.h:36 | assigning through `root()` sets the root and nothing else |
| XLangTreeContext.TreeContext.AllocString | libxl/src/XLangTreeContext.cpp:23-27 | a new string object with the given text at a fresh address, allocated with a destructor, not interned |
| XLangTreeContext.TreeContext.AllocUniqueString | libxl/src/XLangTreeContext.cpp:29-39 | returns the one interned pointer with that content; an existing one is returned with nothing allocated, otherwise one is allocated and interned; interned contents stay distinct |
| XLangString.FindFrom | libxl/src/XLangString.cpp:67 | `find` returns the first occurrence of the pattern at or after the start position, or nothing when there is none |
| XLangString.FindFirstOf | libxl/src/XLangString.cpp:77 | `find_first_of` returns the first delimiter position at or after the start, or nothing when no delimiter follows |
| XLangString.CString | libxl/src/XLangString.cpp:120-121 | `strcpy` copies the longest NUL-free prefix, stopping exactly at the first NUL |
| XLangString.Replace | libxl/src/XLangString.cpp:62-70 | the loop returns the leftmost, non-overlapping replacement of every occurrence, never searching inserted text again; an empty input or pattern gives the input back |
| XLangString.ReplacedAtFirst | libxl/src/XLangString.cpp:67-68 | text before the first occurrence is kept, that occurrence is replaced, and the search resumes right after it |
| XLangString.ReplacedNoOccurrence | libxl/src/XLangString.cpp:62-70 | a string without the pattern comes back unchanged |
| XLangString.ReplacedChar | libxl/src/XLangString.cpp:62-70 | replacing a one-character pattern is a per-character substitution |
| XLangString.Tokenize | libxl/src/XLangString.cpp:72-86 | the loop returns the non-empty runs between delimiters, then the non-empty tail |
| XLangString.TokensFromWellFormed | libxl/src/XLangString.cpp:79-84 | every token is non-empty and holds no delimiter |
| XLangString.TokensFromCover | libxl/src/XLangString.cpp:72-86 | the tokens put back together are the input with its delimiters removed: nothing lost, nothing added, order kept |
| XLangString.AllDelimsNoTokens | libxl/src/XLangString.cpp:72-86 | a string made only of delimiters gives no token |
| XLangString.EscapeChar | libxl/src/XLangString.cpp:145-160 | the six special characters become a backslash and a letter that unescapes back to them; NUL gives the empty string; every other character stands for itself |
| XLangString.UnescapeChar | libxl/src/XLangString.cpp:162-171 | only `r`, `n` and `t` change; the result is NUL exactly for NUL |
| XLangString.Escape | libxl/src/XLangString.cpp:110-116 | the loop concatenates the escape of every character |
| XLangString.Unescape | libxl/src/XLangString.cpp:118-143 | the loop reads the input up to its first NUL, drops each lone backslash and unescapes the character after it |
| XLangString.EscapeRoundTrip | libxl/src/XLangString.cpp:110-160 | unescaping undoes escaping for every string, except that NUL characters are lost |
| XLangString.EscapeRoundTripNulFree | libxl/src/XLangString.cpp:110-160 | for a NUL-free string the escape round trip is exact |
| XLangString.EscapeXml | libxl/src/XLangString.cpp:88-97 | the five entity replacements, `&` first, then C escaping |
| XLangString.UnescapeXml | libxl/src/XLangString.cpp:99-108 | the five entity decodings, `&amp;` last, then C unescaping |
| XLangString.XmlEscapedIsEncode | libxl/src/XLangString.cpp:88-97 | XML escaping is one fixed code per character: the five replacements never interfere with one another |
| XLangString.XmlEscapedIsSafe | libxl/src/XLangString.cpp:88-97 | escaped text holds no raw `<`, `>`, `"`, `'` and no NUL |
| XLangString.XmlRoundTrip | libxl/src/XLangString.cpp:88-108 | XML unescaping undoes XML escaping for every string, except that NUL characters are lost |
| XLangString.XmlRoundTripNulFree | libxl/src/XLangString.cpp:88-108 | for a NUL-free string the XML round trip is exact |
| XLangNode.KindSymbol | libxl/include/node/XLangNode.h:105-106 | a node has kind SYMBOL exactly when it is a symbol node with a child vector |
| XLangNode.Original | libxl/include/node/XLangNode.h:65-68 | `original()` is the node itself or its stored original, and in a closed arena a node of the arena |
| XLangNode.ClosedPut | libxl/include/node/XLangNode.h:70-75 | storing a node whose parent, original and children all point into the arena keeps the arena closed |
| XLangNode.SetParents | app/src/XLangNode.cpp:106-110 | the reparenting loop leaves the set of nodes in the arena unchanged |
| XLangNode.SetParentsSpec | app/src/XLangNode.cpp:106-110 | the loop sets the parent of exactly the non-null listed nodes to the new symbol and changes nothing else |
| XLangNode.FlattenArgsAppend | app/src/XLangNode.cpp:92-117 | the arguments are handled in order: the child vector built from two argument lists is the concatenation of theirs |
| XLangNode.FlattenSkipsEol | app/src/XLangNode.cpp:98-99 | the `eol()` marker adds nothing, wherever it appears |
| XLangNode.FlattenOneLevel | app/src/XLangNode.cpp:100-111 | a same-type symbol argument contributes its child vector exactly, with no deeper splicing |
| XLangNode.FlattenPlain | app/src/XLangNode.cpp:113-115 | with no same-type symbol among the arguments the child vector is the arguments in order, nulls kept and `eol()` dropped |
| XLangNode.FlattenArgsFrom | app/src/XLangNode.cpp:95-116 | every node in the new vector was a direct argument or a child of an absorbed same-type symbol |
| XLangNode.FlattenedIn | app/src/XLangNode.cpp:95-116 | every non-null pointer in the new child vector points into the arena |
| XLangNode.FlattenedParents | app/src/XLangNode.cpp:95-116 | every node placed in the new vector was parentless or a child of an absorbed symbol |
| XLangNode.NewSymbolConsistency | app/src/XLangNode.cpp:92-117 | the flattening constructor keeps every parent pointer matched by its parent's child vector, except inside the absorbed symbols, which keep their stale vectors |
| XLangNode.NewSymbolMembership | app/src/XLangNode.cpp:92-117 | after construction every node with a parent is among that parent's children |
| XLangNode.NewSymbolSpec | app/src/XLangNode.cpp:92-117 | the new symbol is a root whose `original()` is itself, and each of its non-null children points back to it |
| XLangNode.NewTermSpec | libxl/include/node/XLangNode.h:82-84 | a new term is a root, its own original, and its kind is its payload's kind |
| XLangNode.FirstIndex | app/src/XLangNode.cpp:178 | `std::find` gives the first position holding the value, or nothing exactly when the value is absent |
| XLangNode.RemoveAllSpec | app/src/XLangNode.cpp:191 | erase-remove drops every occurrence of the value and keeps the count of every other element |
| XLangNode.RemoveAllPrefix | app/src/XLangNode.cpp:188-191 | elements before the first occurrence are not touched |
| XLangNode.RemoveAllIn | app/src/XLangNode.cpp:191 | an element remains exactly when it was present and differs from the removed value |
| XLangNode.ReplaceAllPrefix | app/src/XLangNode.cpp:198-201 | elements before the first occurrence are not replaced |
| XLangNode.PushBackSpec | app/src/XLangNode.cpp:162-167 | `push_back` appends the node and parents it to the symbol; no other node changes |
| XLangNode.PushFrontSpec | app/src/XLangNode.cpp:169-174 | `push_front` prepends the node and parents it to the symbol; no other node changes |
| XLangNode.InsertAfterSpec | app/src/XLangNode.cpp:176-184 | `insert_after` puts the node right after the first occurrence of the anchor and parents it, and does nothing when the anchor is absent |
| XLangNode.RemoveFirstSpec | app/src/XLangNode.cpp:186-194 | `remove_first` drops every occurrence, keeps the other children with their counts and clears the removed node's parent; it does nothing when the node is absent |
| XLangNode.ReplaceFirstSpec | app/src/XLangNode.cpp:196-206 | `replace_first` replaces every occurrence; the replaced node loses its parent unless it is the replacement, and the replacement is parented to the symbol |
| XLangNode.EraseSpec | app/src/XLangNode.cpp:208-218 | `erase(i)` removes exactly slot `i` and clears that node's parent; an index out of range changes nothing |
| XLangNode.EraseRepeatedOrphans | app/src/XLangNode.cpp:215-217 | when a node fills two slots, erasing one leaves the node still in the vector but with no parent |
| XLangNode.PushBackConsistent | app/src/XLangNode.cpp:162-167 | `push_back` of a parentless node (or null) into a symbol other than the node itself keeps parents and children consistent |
| XLangNode.PushBackMembership | app/src/XLangNode.cpp:162-167 | `push_back` keeps every parented node among its parent's children |
| XLangNode.RemoveFirstUnheld | app/src/XLangNode.cpp:186-194 | after `remove_first` of a child, no symbol holds it and it has no parent |
| XLangNode.RemoveFirstConsistent | app/src/XLangNode.cpp:186-194 | `remove_first` keeps parents and children consistent |
| XLangNode.RemoveFirstMembership | app/src/XLangNode.cpp:186-194 | `remove_first` keeps every parented node among its parent's children |
| XLangNode.PushFrontConsistent | app/src/XLangNode.cpp:169-174 | `push_front` of a parentless node (or null) into a symbol other than the node itself keeps parents and children consistent |
| XLangNode.InsertAfterConsistent | app/src/XLangNode.cpp:176-184 | `insert_after` of a parentless node other than the symbol keeps parents and children consistent, whether or not the anchor is found |
| XLangNode.ReplaceFirstConsistent | app/src/XLangNode.cpp:196-206 | `replace_first` keeps parents and children consistent when the replacement is null, is the replaced node, or is a parentless node other than the symbol |
| XLangNode.EraseConsistent | app/src/XLangNode.cpp:208-218 | `erase(i)` keeps parents and children consistent when the erased slot is null or no other slot holds its node |
| XLangNode.AppendClosed | app/src/XLangNode.cpp:162-167 | `push_back` of null or of a node of the arena keeps every pointer inside the arena |
| XLangNode.PushFrontClosed | app/src/XLangNode.cpp:169-174 | `push_front` of null or of a node of the arena keeps every pointer inside the arena |
| XLangNode.InsertAfterClosed | app/src/XLangNode.cpp:176-184 | `insert_after` of a node of the arena keeps every pointer inside the arena |
| XLangNode.RemoveFirstClosed | app/src/XLangNode.cpp:186-194 | `remove_first` keeps every pointer inside the arena |
| XLangNode.ReplaceFirstClosed | app/src/XLangNode.cpp:196-206 | `replace_first` with null or a node of the arena keeps every pointer inside the arena |
| XLangNode.EraseClosed | app/src/XLangNode.cpp:208-218 | `erase(i)` keeps every pointer inside the arena, for any index |
| XLangNode.DetachSpec | app/src/XLangNode.cpp:49-57 | after `detach` the node has no parent, no symbol holds it, and the arena stays consistent (and closed when it was) |
| XLangNode.IndexOf | app/src/XLangNode.cpp:59-73 | `index()` is the first position of the node among its symbol parent's children, and -1 exactly when there is no symbol parent or the node is not found |
| XLangNode.IndexInTree | app/src/XLangNode.cpp:59-73 | in a consistent arena every node with a parent has a position, and that slot holds it |
| XLangNode.FirstWhere | app/src/XLangNode.cpp:224 | `std::find_if` gives the first position satisfying the predicate, or nothing exactly when no position does |
| XLangNode.Compare | libxl/include/node/XLangNode.h:94-137 | `compare` answers true only for an argument of the same type and lexer id (and, for a symbol, the same number of children); it dereferences a null or dangling argument, and a term never dereferences anything else |
| XLangNode.CompareChildren | libxl/include/node/XLangNode.h:131-136 | a child scan that answers true met no null child on either side |
| XLangNode.FirstUnequal | libxl/include/node/XLangNode.h:131-136 | the first pair of children from `i` on that does not compare equal, with every pair before it equal |
| XLangNode.CompareChildrenAll | libxl/include/node/XLangNode.h:131-136 | the child scan answers true exactly when every remaining pair compares equal, and otherwise gives the outcome of the first pair that does not |
| XLangNode.CompareReflexive | libxl/include/node/XLangNode.h:94-137 | every null-free node compares equal to itself |
| XLangNode.SelfCompareUndefined | libxl/include/node/XLangNode.h:124-137 | comparing a node that has a null child somewhere below it with itself dereferences that null child |
| XLangNode.SelfKidsUndefined | libxl/include/node/XLangNode.h:131-136 | a child scan of a node against itself that reaches a child with a null below it dereferences null |
| XLangNode.CompareSymmetric | libxl/include/node/XLangNode.h:94-137 | `compare` gives the same outcome, null dereference included, with its arguments swapped |
| XLangNode.CompareSymmetricKids | libxl/include/node/XLangNode.h:131-136 | the child scan gives the same outcome with the two nodes swapped |
| XLangNode.Find | libxl/include/node/XLangNode.h:138-146 | `find` returns the first child that compares equal to the argument; null exactly when every child compares unequal; and a null dereference exactly when a null child, or a compare that dereferences null, comes before any equal child |
| XLangNode.FindFrom | libxl/include/node/XLangNode.h:140-145 | the scan from position `i` returns the first equal child at or after `i`, null exactly when every one compares unequal, and a null dereference exactly when one occurs before an equal child |
| XLangNode.CloneTreeFrame | app/src/XLangNode.cpp:146-160 | a clone subtree depends only on the nodes allocated for it, so later allocations keep it |
| XLangNode.CloneCompares | app/src/XLangNode.cpp:146-160 | a clone compares equal to its source, without dereferencing null |
| XLangNode.CloneOriginal | app/src/XLangNode.cpp:75-82 | a clone's `original()` is its source for STRING and SYMBOL nodes, and itself for the other terms |
| XLangNode.NodeStore.constructor | libxl/include/XLangTreeContext.h:32-34 | an empty node arena over the given allocator |
| XLangNode.NodeStore.InitSymbol | app/src/XLangNode.cpp:92-144 | both flattening constructors build the arena of the flattening specification, and the store stays valid |
| XLangNode.NodeStore.AddArg | app/src/XLangNode.cpp:97-115 | one argument of the constructor loop appends its piece and reparents it |
| XLangNode.NodeStore.SpliceParents | app/src/XLangNode.cpp:106-110 | the inner loop sets the parent of every spliced child |
| XLangNode.NodeStore.InitTerm | libxl/include/node/XLangNode.h:82-84 | the term constructor builds the arena of its specification, and the store stays valid |
| XLangNode.NodeStore.PushBack | app/src/XLangNode.cpp:162-167 | `push_back` produces the arena of its specification, and the store stays valid |
| XLangNode.NodeStore.PushFront | app/src/XLangNode.cpp:169-174 | `push_front` produces the arena of its specification, and the store stays valid |
| XLangNode.NodeStore.InsertAfter | app/src/XLangNode.cpp:176-184 | `insert_after` produces the arena of its specification, and the store stays valid |
| XLangNode.NodeStore.RemoveFirst | app/src/XLangNode.cpp:186-194 | the search plus erase-remove produces the arena of its specification, and the store stays valid |
| XLangNode.NodeStore.ReplaceFirst | app/src/XLangNode.cpp:196-206 | the search plus `std::replace` produces the arena of its specification, and the store stays valid |
| XLangNode.NodeStore.Erase | app/src/XLangNode.cpp:208-218 | `erase` produces the arena of its specification, and the store stays valid |
| XLangNode.NodeStore.Detach | app/src/XLangNode.cpp:49-57 | `detach` produces the arena of its specification, and the store stays valid |
| XLangNode.NodeStore.Index | app/src/XLangNode.cpp:59-73 | the scanning loop returns `IndexOf` |
| XLangNode.NodeStore.FindIf | app/src/XLangNode.cpp:220-229 | a null predicate gives null; otherwise the first child satisfying it, or null when none does |
| XLangNode.NodeStore.Clone | app/src/XLangNode.cpp:154 | `clone` dispatched on the node class returns a fresh, parentless copy of the subtree in new allocator chunks; old nodes and the destructor log are unchanged |
| XLangNode.NodeStore.CloneTerm | libxl/include/node/XLangNode.h:89-93 | a term clone is a fresh term with the same lexer id and payload; the STRING clone also records its source as original |
| XLangNode.NodeStore.CloneSymbol | app/src/XLangNode.cpp:146-160 | the symbol clone is a fresh symbol whose children are clones of the source's children, in order, nulls kept |
| XLangNode.NodeStore.CloneChildInto | app/src/XLangNode.cpp:154-157 | one round of the child loop clones one child and keeps the loop invariant |
| XLangNode.NodeStore.AppendChild | app/src/XLangNode.cpp:155-157 | `push_back` then `set_parent` on the clone |
| XLangNode.SymbolCloneStart | app/src/XLangNode.cpp:149-151 | the loop invariant holds once the empty clone is allocated |
| XLangNode.CloneRound | app/src/XLangNode.cpp:152-158 | one round of the loop keeps the invariant and the arena closed |
| XLangNode.ClonedAll | app/src/XLangNode.cpp:152-159 | when every child is mirrored the clone subtree is complete |
| XLangNode.AddFreshNode | app/src/XLangNode.cpp:78-79 | placing a new term at a freshly allocated address keeps the arena closed and only grows it |
| XLangPrinter.Indent | libxl/src/XLangPrinter.cpp:113 | the indent at depth `d` is exactly `4*d` spaces |
| XLangPrinter.DotHeaderRankdir | libxl/src/XLangPrinter.cpp:298-303 | read off the header text: it opens with `digraph g {`, and holds the left-to-right `rankdir` line exactly when a horizontal layout is asked for |
| XLangPrinter.DotDepthFree | libxl/src/XLangPrinter.cpp:233-296 | the DOT printer's output does not depend on the depth it starts at |
| XLangPrinter.DotKidsDepthFree | libxl/src/XLangPrinter.cpp:241 | the same for the output of a symbol's children |
| XLangPrinter.TermTextSingleLine | libxl/src/XLangPrinter.cpp:120-153 | a terminal's Lisp rendering holds no newline, because `escape` turns a newline into a backslash pair |
| XLangPrinter.LispLines | libxl/src/XLangPrinter.cpp:111-158 | a subtree's Lisp output has one line per terminal and per null slot and two per symbol, at any depth |
| XLangPrinter.LispSymbolLines | libxl/src/XLangPrinter.cpp:111-158 | a symbol's Lisp output has its opening and closing lines plus its children's lines |
| XLangPrinter.LispKidsLines | libxl/src/XLangPrinter.cpp:115 | the children's Lisp output has the sum of their line counts |
| XLangPrinter.LispSymbolFrame | libxl/src/XLangPrinter.cpp:111-118 | a symbol's Lisp output opens with `(` at its own indent and closes with `)` at the same indent |
| XLangPrinter.DotRootWrapped | libxl/src/XLangPrinter.cpp:233-246 | with the digraph wrapper on, a root symbol's output starts with the header and ends with the footer |
| XLangPrinter.DotUnwrapped | libxl/src/XLangPrinter.cpp:235-240 | with the wrapper off, or for a symbol with a parent, the output starts directly with the ellipse statement |
| XLangPrinter.ConsistentTermsParented | libxl/src/XLangPrinter.cpp:248-290 | in a consistent arena, every terminal the DOT printer reaches below a symbol has the parent whose uid its edge prints |
| XLangVisitor.Advance | libxl/src/XLangVisitor.cpp:65 | only the top frame's cursor moves, by one; the frames below are unchanged |
| XLangVisitor.Pop | libxl/src/XLangVisitor.cpp:50-56 | popping removes exactly the top frame, and an empty stack stays empty |
| XLangVisitor.NextChildSweep | libxl/include/visitor/XLangVisitor.h:110-117 | `next_child(n)` followed by repeated `next_child()` yields the children in index order, each once, then fails once and restores the stack as it was before the sweep |
| XLangVisitor.NextChildAt | libxl/include/visitor/XLangVisitor.h:110-117 | from any point of a sweep, the next call is the next step of that sweep |
| XLangVisitor.MaxHeight | libxl/src/XLangPrinter.cpp:31-37 | the `max_height` loop gives a value no child height exceeds, equal to some child's height unless it is 0 |
| XLangVisitor.Run | libxl/include/visitor/XLangVisitor.h:69-109 | `dispatch_visit` leaves the depth counter as it found it |
| XLangVisitor.RunSymbol | libxl/include/visitor/XLangVisitor.h:102-104 | a symbol visit, in any role, leaves the depth counter as it found it |
| XLangVisitor.AnnotateRun | libxl/src/XLangPrinter.cpp:26-40 | the annotator's symbol visit restores the depth it raised for the children |
| XLangVisitor.AnnotateRunIs | libxl/src/XLangPrinter.cpp:26-40 | after the children are walked, the symbol's height is one more than the largest child height and its depth is the current one |
| XLangVisitor.PrintRun | libxl/src/XLangPrinter.cpp:111-118 | the printers' symbol visit restores the depth it raised for the children |
| XLangVisitor.RunBody | libxl/src/XLangVisitor.cpp:22-43 | `VisitorDFS::visit(symbol)` leaves the depth counter unchanged |
| XLangVisitor.RunKids | libxl/src/XLangVisitor.cpp:41-42 | the unfiltered child loop leaves the depth counter unchanged |
| XLangVisitor.RunFiltered | libxl/src/XLangVisitor.cpp:24-39 | the filtered child loop leaves the depth counter unchanged |
| XLangVisitor.FilteredTurn | libxl/src/XLangVisitor.cpp:31-36 | one turn of the filtered loop leaves the depth counter unchanged |
| XLangVisitor.SafeKid | libxl/src/XLangVisitor.cpp:22-43 | a walk that is safe for a symbol is safe for each of its children |
| XLangVisitor.VisitorDFS.constructor | libxl/include/visitor/XLangVisitor.h:38-39 | a new visitor allows null visits, has no filter, an empty stack and depth 0 |
| XLangVisitor.VisitorDFS.SetAllowVisitNull | libxl/include/visitor/XLangVisitor.h:135-138 | the null-visit flag is set as given |
| XLangVisitor.VisitorDFS.SetFilterCb | libxl/include/visitor/XLangFilterable.h:34-37 | the filter is set as given |
| XLangVisitor.VisitorDFS.PushState | libxl/src/XLangVisitor.cpp:45-48 | the stack gains a frame for the symbol with its cursor at 0 |
| XLangVisitor.VisitorDFS.PopState | libxl/src/XLangVisitor.cpp:50-56 | false exactly on an empty stack; otherwise the top frame is removed |
| XLangVisitor.VisitorDFS.NextState | libxl/src/XLangVisitor.cpp:58-67 | at the end of a symbol the frame is popped and the result is false; otherwise the cursor advances and the result is true |
| XLangVisitor.VisitorDFS.GetCurrentNode | libxl/src/XLangVisitor.cpp:69-77 | fails at the end, leaving the output as it was; otherwise yields the child under the cursor |
| XLangVisitor.VisitorDFS.NextChild | libxl/include/visitor/XLangVisitor.h:110-117 | the method computes the sweep function, and inside a sweep it takes the sweep's next step |
| XLangVisitor.VisitorDFS.AbortVisitation | libxl/include/visitor/XLangVisitor.h:129-132 | pops at most one frame |
| XLangVisitor.VisitorDFS.VisitNextChild | libxl/include/visitor/XLangVisitor.h:118-128 | while children remain it dispatches exactly the next child and returns it; at the end it fails, dispatches nothing and changes no output |
| XLangVisitor.VisitorDFS.Dispatch | libxl/include/visitor/XLangVisitor.h:69-109 | a null slot is visited only when null visits are allowed, and a node by the overload for its kind; the stack is unchanged |
| XLangVisitor.VisitorDFS.VisitNull | libxl/src/XLangPrinter.cpp:72-74 | the annotator writes nothing for a null slot; the printers write their null marker |
| XLangVisitor.VisitorDFS.VisitTerm | libxl/src/XLangPrinter.cpp:42-70 | the annotator records height 0 and the current depth; each printer writes its terminal line |
| XLangVisitor.VisitorDFS.VisitSymbol | libxl/include/visitor/XLangVisitor.h:102-104 | the symbol overload chosen by the visitor's role |
| XLangVisitor.VisitorDFS.AnnotateSymbol | libxl/src/XLangPrinter.cpp:26-40 | `TreeAnnotator::visit(symbol)` computes the annotation run |
| XLangVisitor.VisitorDFS.PrintSymbol | libxl/src/XLangPrinter.cpp:160-171 | the printers' symbol visit writes the opening, the children one level deeper, then the closing |
| XLangVisitor.VisitorDFS.MaxChildHeight | libxl/src/XLangPrinter.cpp:31-37 | the loop returns the largest stored child height, or 0 |
| XLangVisitor.VisitorDFS.DfsVisit | libxl/src/XLangVisitor.cpp:22-43 | `VisitorDFS::visit(symbol)` runs the filtered loop when a filter is set, and otherwise the unfiltered one |
| XLangVisitor.VisitorDFS.PlainVisit | libxl/src/XLangVisitor.cpp:41-42 | `while(visit_next_child())` dispatches every child in index order |
| XLangVisitor.VisitorDFS.FilteredVisit | libxl/src/XLangVisitor.cpp:24-39 | the `do`/`while(next_child())` loop takes one turn per child, in index order |
| XLangVisitor.VisitorDFS.FilteredChild | libxl/src/XLangVisitor.cpp:31-36 | a child symbol the filter accepts is walked directly, bypassing its own visit; any other child is dispatched |
| XLangVisitor.FormOutput | libxl/src/XLangPrinter.cpp:111-296 | with no filter and null visits allowed, a printer appends exactly the reference text of its form, at the current depth, and changes nothing else |
| XLangVisitor.FormSymbolOutput | libxl/src/XLangPrinter.cpp:111-296 | for a symbol, a printer appends its opening, its children's reference texts in order and its closing, and restores the depth |
| XLangVisitor.FormKidsOutput | libxl/src/XLangVisitor.cpp:41-42 | the child loop appends the reference text of the remaining children |
| XLangVisitor.LispOutput | libxl/src/XLangPrinter.cpp:111-158 | `LispPrinter` writes the Lisp reference text |
| XLangVisitor.XmlOutput | libxl/src/XLangPrinter.cpp:160-231 | `XMLPrinter` writes the XML reference text |
| XLangVisitor.DotOutput | libxl/src/XLangPrinter.cpp:233-308 | `DotPrinter` writes the DOT reference text, whatever the depth counter holds, on a subtree whose every terminal has a parent |
| XLangVisitor.Height | libxl/src/XLangPrinter.cpp:38 | a symbol's height is at least 1 |
| XLangVisitor.KidsHeightIsMax | libxl/src/XLangPrinter.cpp:31-38 | a symbol is higher than each child, and exactly one higher than the highest |
| XLangVisitor.MaxHeightIsKidsHeight | libxl/src/XLangPrinter.cpp:31-37 | when the children carry their true heights, the `max_height` loop gives their largest height |
| XLangVisitor.AnnotatedHeights | libxl/src/XLangPrinter.cpp:26-70 | with no filter, `TreeAnnotator` gives the visited node its true height and the depth it was reached at, keeps every true height already recorded, and writes nothing |
| XLangVisitor.AnnotatedKidsHeights | libxl/src/XLangPrinter.cpp:29 | the child loop gives every remaining child its true height without spoiling earlier ones |
| XLangVisitor.RejectingFilterInert | libxl/src/XLangVisitor.cpp:24-39 | a filter that accepts nothing behaves exactly like no filter |
| XLangVisitor.RejectingFilterInertKids | libxl/src/XLangVisitor.cpp:27-37 | the filtered loop under such a filter equals the unfiltered loop |
| XLangVisitorBFS.Weight | libxl/src/XLangVisitor.cpp:109-119 | every slot counts at least itself, which bounds the BFS sweep |
| XLangVisitorBFS.QWeightAppend | libxl/src/XLangVisitor.cpp:116 | the weight of a concatenated queue is the sum of the weights |
| XLangVisitorBFS.QWeightKids | libxl/src/XLangVisitor.cpp:115-116 | the weight of the enqueued children is the children's total weight |
| XLangVisitorBFS.ExpandWeight | libxl/src/XLangVisitor.cpp:111-118 | one turn of the loop (enqueue the front's children, dequeue the front) lowers the queue weight by exactly one |
| XLangVisitorBFS.Skim | libxl/src/XLangVisitor.cpp:107-119 | the queue `next_state` leaves is lighter than the one it started from, so the `do`/`while` loop ends |
| XLangVisitorBFS.NextLevelWeight | libxl/src/XLangVisitor.cpp:115-116 | the next level weighs as much as the queue less one per slot |
| XLangVisitorBFS.SkimUnfiltered | libxl/src/XLangVisitor.cpp:109-119 | with no filter, `next_state` dequeues exactly the front and enqueues its children |
| XLangVisitorBFS.VisitsSplit | libxl/src/XLangVisitor.cpp:100-121 | with no filter, a sweep of the queue `a + b` visits `a` first, then sweeps `b` followed by the children of `a` |
| XLangVisitorBFS.VisitsLevelOrder | libxl/src/XLangVisitor.cpp:100-138 | with no filter, a sweep visits the slots in level order |
| XLangVisitorBFS.LevelOrderLength | libxl/src/XLangVisitor.cpp:115-116 | level order lists every slot of the subtrees, nulls included: its length is the total weight |
| XLangVisitorBFS.StampConsecutive | libxl/src/XLangPrinter.cpp:76-109 | with null visits allowed the counter moves on by one per slot, and a node visited for the last time at position `j` keeps the number `next + j` |
| XLangVisitorBFS.StampKeeps | libxl/src/XLangPrinter.cpp:76-109 | a node not visited keeps its number |
| XLangVisitorBFS.NextLevelBelow | libxl/src/XLangVisitor.cpp:115-116 | children rank below their parent, so a level's bound passes on to the next |
| XLangVisitorBFS.LevelOrderBelow | libxl/src/XLangVisitor.cpp:100-121 | every slot of the level order comes from the subtrees of the queue |
| XLangVisitorBFS.BfsNumbering | libxl/src/XLangMVCView.cpp:54-58 | with no filter, the BFS pass gives the root the first number and moves the counter on by the number of slots of the tree, nulls included |
| XLangVisitorBFS.RejectingFilterVisits | libxl/src/XLangVisitor.cpp:119 | a filter that accepts nothing visits what no filter visits |
| XLangVisitorBFS.TreeAnnotatorBFS.constructor | libxl/include/visitor/XLangVisitor.h:38-39 | a new annotator allows null visits, has no filter, an empty stack and counter 0 |
| XLangVisitorBFS.TreeAnnotatorBFS.SetAllowVisitNull | libxl/include/visitor/XLangVisitor.h:135-138 | the null-visit flag is set as given |
| XLangVisitorBFS.TreeAnnotatorBFS.SetFilterCb | libxl/include/visitor/XLangFilterable.h:34-37 | the filter is set as given |
| XLangVisitorBFS.TreeAnnotatorBFS.PushState | libxl/src/XLangVisitor.cpp:86-90 | the stack gains a queue holding only the symbol |
| XLangVisitorBFS.TreeAnnotatorBFS.PopState | libxl/src/XLangVisitor.cpp:92-98 | false exactly on an empty stack; otherwise the top queue is removed |
| XLangVisitorBFS.TreeAnnotatorBFS.Dequeue | libxl/src/XLangVisitor.cpp:111-118 | one loop turn enqueues the front's children in index order, nulls included, and dequeues the front |
| XLangVisitorBFS.TreeAnnotatorBFS.NextState | libxl/src/XLangVisitor.cpp:100-121 | at the end the top queue is popped and the result is false; otherwise the top queue becomes the skimmed queue |
| XLangVisitorBFS.TreeAnnotatorBFS.GetCurrentNode | libxl/src/XLangVisitor.cpp:123-131 | fails at the end, leaving the output as it was; otherwise yields the front of the top queue |
| XLangVisitorBFS.TreeAnnotatorBFS.NextChild | libxl/include/visitor/XLangVisitor.h:110-117 | the method computes the queue-stepping function and keeps every queue inside the arena |
| XLangVisitorBFS.TreeAnnotatorBFS.AbortVisitation | libxl/include/visitor/XLangVisitor.h:129-132 | pops at most one queue |
| XLangVisitorBFS.TreeAnnotatorBFS.Visit | libxl/src/XLangPrinter.cpp:76-104 | every node kind takes the next number |
| XLangVisitorBFS.TreeAnnotatorBFS.VisitNull | libxl/src/XLangPrinter.cpp:106-109 | a null slot only moves the counter on |
| XLangVisitorBFS.TreeAnnotatorBFS.Dispatch | libxl/include/visitor/XLangVisitor.h:69-109 | a null slot is numbered only when null visits are allowed; a node is always numbered |
| XLangVisitorBFS.TreeAnnotatorBFS.VisitNextChild | libxl/include/visitor/XLangVisitor.h:118-128 | on success it numbers exactly the slot `next_child` produced and returns it; on failure the numbers are unchanged |
| XLangVisitorDFS.SetTop | libxl/src/XLangVisitorDFS.cpp:157 | only the top cursor is replaced |
| XLangVisitorDFS.Popped | libxl/src/XLangVisitorDFS.cpp:41 | popping removes exactly the top cursor |
| XLangVisitorDFS.KidsTextStep | libxl/src/XLangVisitorDFS.cpp:59 | the text of the first `k+1` children is that of the first `k` followed by child `k`'s |
| XLangVisitorDFS.NullFreeText | libxl/src/XLangVisitorDFS.cpp:93-100 | on a subtree with no null slot, the null-visit flag makes no difference |
| XLangVisitorDFS.NullFreeKidsText | libxl/src/XLangVisitorDFS.cpp:59 | the same for a symbol's children |
| XLangVisitorDFS.NullKidsSilent | libxl/src/XLangVisitorDFS.cpp:88-100 | null slots print nothing without null visits and `NULL` each with them |
| XLangVisitorDFS.VisitorDFS.constructor | libxl/include/visitor/XLangVisitorDFS.h:32-33 | a new visitor allows null visits, has no filter, an empty state stack and no output yet |
| XLangVisitorDFS.VisitorDFS.SetAllowVisitNull | libxl/include/visitor/XLangVisitorDFS.h:44-47 | `set_allow_visit_null` sets the flag and nothing else |
| XLangVisitorDFS.VisitorDFS.SetFilterCb | libxl/include/visitor/XLangVisitorDFS.h:48-51 | `set_filter_cb` sets the filter and nothing else |
| XLangVisitorDFS.VisitorDFS.GetNextChildIndex | libxl/src/XLangVisitorDFS.cpp:160-167 | -1 on an empty stack or an exhausted frame; the cursor, which then moves on, while it is below the child count; otherwise the frame is marked exhausted and -1 returned |
| XLangVisitorDFS.VisitorDFS.AbortVisitation | libxl/src/XLangVisitorDFS.cpp:154-158 | marks the innermost frame exhausted, and does nothing on an empty stack |
| XLangVisitorDFS.VisitorDFS.GetNextChild | libxl/src/XLangVisitorDFS.cpp:127-136 | the child at the cursor, with the frame marked exhausted once the last child is handed out; null when there is no next child |
| XLangVisitorDFS.VisitorDFS.VisitNextChild | libxl/src/XLangVisitorDFS.cpp:138-152 | the next child is written out and dispatched, and the result says whether another child follows; after the last child the frame is marked exhausted |
| XLangVisitorDFS.VisitorDFS.Dispatch | libxl/src/XLangVisitorDFS.cpp:93-125 | appends the reference text of the slot: `NULL` only with null visits allowed, and otherwise the overload of the node's kind; the stack is unchanged |
| XLangVisitorDFS.VisitorDFS.VisitNull | libxl/src/XLangVisitorDFS.cpp:88-91 | writes `NULL` |
| XLangVisitorDFS.VisitorDFS.VisitTerm | libxl/src/XLangVisitorDFS.cpp:63-86 | writes the terminal's text: INT and FLOAT raw, STRING and CHAR quoted after `escape`, IDENT as its text |
| XLangVisitorDFS.VisitorDFS.Visit | libxl/src/XLangVisitorDFS.cpp:26-61 | `visit(symbol)` writes the text of every child in order, with or without a filter, and leaves the stack as it found it |
| XLangVisitorDFS.VisitorDFS.PlainVisit | libxl/src/XLangVisitorDFS.cpp:58-60 | `while(visit_next_child(node))` on a fresh frame writes the text of all the children |
| XLangVisitorDFS.VisitorDFS.SweepStep | libxl/src/XLangVisitorDFS.cpp:138-152 | one call dispatches child `i` and succeeds unless that child is the last or there is none |
| XLangVisitorDFS.VisitorDFS.SweepTurn | libxl/src/XLangVisitorDFS.cpp:138-152 | one call of the unfiltered loop extends the printed text by the next child's, and succeeds unless that child was the last |
| XLangVisitorDFS.VisitorDFS.FilteredVisit | libxl/src/XLangVisitorDFS.cpp:32-57 | the filtered loop writes the same text as the unfiltered one: an accepted child symbol walked directly prints what its dispatch would |
| XLangVisitorDFS.VisitorDFS.FilteredChild | libxl/src/XLangVisitorDFS.cpp:44-53 | one turn of the filtered loop writes exactly the text of child `k` |
| XLangMVCView.AnnotateDepthFirst | libxl/src/XLangMVCView.cpp:47-50 | the DFS half of `annotate_tree` is the annotator's run; with no filter the root gets its true height and depth 0 |
| XLangMVCView.AnnotateBreadthFirst | libxl/src/XLangMVCView.cpp:54-58 | the BFS half numbers the slots of the sweep from 0 in visiting order; with no filter the root gets number 0 |
| XLangMVCView.Drain | libxl/src/XLangMVCView.cpp:57-58 | the loop that calls `visit_next_child()` until it fails numbers every slot of the sweep from the queue still to visit, in order |
| XLangMVCView.AnnotateTree | libxl/src/XLangMVCView.cpp:43-59 | `annotate_tree` always runs the DFS annotator, and the BFS annotator only for a symbol; otherwise the BFS numbers are unchanged |
| XLangMVCView.RunPrinter | libxl/src/XLangMVCView.cpp:65-68 | a printer created fresh, given the filter when there is one, and dispatched on the node |
| XLangMVCView.PrintLisp | libxl/src/XLangMVCView.cpp:61-69 | with no filter, `print_lisp` writes the reference Lisp text from depth 0 |
| XLangMVCView.PrintXml | libxl/src/XLangMVCView.cpp:71-79 | with no filter, `print_xml` writes the reference XML text from depth 0 |
| XLangMVCView.PrintDot | libxl/src/XLangMVCView.cpp:81-88 | `print_dot` sets no filter and writes the reference DOT text, on a subtree whose every terminal has a parent |
| XLangMVCView.Label | libxl/src/XLangMVCView.cpp:165-184 | a box label is read as a C string, so it holds no NUL |
| XLangMVCView.Layout | libxl/src/XLangMVCView.cpp:186-211 | a node's box lies within its span, its middle column lies in the span, and a symbol's span covers its children laid out side by side |
| XLangMVCView.KidStart | libxl/src/XLangMVCView.cpp:200-204 | no child starts left of the parent's start column |
| XLangMVCView.KidStartMonotone | libxl/src/XLangMVCView.cpp:200-204 | later children never start left of earlier ones |
| XLangMVCView.GraphBox | libxl/src/XLangMVCView.cpp:269-272 | `graphBox` gives a box one row high and wider than its text |
| XLangMVCView.KidStep | libxl/src/XLangMVCView.cpp:201-203 | the first child is not null; a drawable child ends where the next one starts, and a null child, which `exNode` returns from at once, leaves the start column unchanged |
| XLangMVCView.ArrowAt | libxl/src/XLangMVCView.cpp:282-291 | an arrow only writes inside the rectangle its two ends span |
| XLangMVCView.TreeArrow | libxl/src/XLangMVCView.cpp:220 | the arrow from a parent to a child two rows down is a `|` under the parent, a run of `-` on the middle row, and a `|` over the child |
| XLangMVCView.ArrowEnds | libxl/src/XLangMVCView.cpp:287-290 | both ends of an arrow are drawn, the far end with `|` |
| XLangMVCView.LastInk | libxl/src/XLangMVCView.cpp:258 | the scan stops at the last non-space at or before `j`, or at column 0 |
| XLangMVCView.CutRow | libxl/src/XLangMVCView.cpp:258-261 | a cut row keeps its width and ends with NUL in its last column |
| XLangMVCView.RowText | libxl/src/XLangMVCView.cpp:257-265 | a cut row prints as the row without its last column and its trailing spaces, or with the last column dropped when that column is not a space |
| XLangMVCView.CutRowCells | libxl/src/XLangMVCView.cpp:257-261 | `graphFinish` clears the last column, the column after the last non-space, and column 0 of a blank row, and keeps every other cell |
| XLangMVCView.InkedRowText | libxl/src/XLangMVCView.cpp:257-265 | a row whose last column is not a space prints as the row without that column |
| XLangMVCView.TrimmedRowText | libxl/src/XLangMVCView.cpp:257-265 | a row ending in spaces prints as the row up to its last non-space |
| XLangMVCView.BlankRowText | libxl/src/XLangMVCView.cpp:257-265 | a row of spaces prints as nothing |
| XLangMVCView.LastRow | libxl/src/XLangMVCView.cpp:263 | the scan for the last row to print never moves past its start |
| XLangMVCView.CutRows | libxl/src/XLangMVCView.cpp:257-262 | every row of the grid is cut independently |
| XLangMVCView.BlankGraphText | libxl/src/XLangMVCView.cpp:255-267 | a blank grid prints as the header and one empty line |
| XLangMVCView.LastRowBlank | libxl/src/XLangMVCView.cpp:263 | on a blank grid the scan reaches row 0 |
| XLangMVCView.AsciiGraph.constructor | libxl/src/XLangMVCView.cpp:230-231 | the globals at program start: a zeroed grid and graph number 0 |
| XLangMVCView.AsciiGraph.Rows | libxl/src/XLangMVCView.cpp:230 | the grid read row by row, each row `cmax` wide |
| XLangMVCView.AsciiGraph.GraphInit | libxl/src/XLangMVCView.cpp:246-253 | every cell becomes a space |
| XLangMVCView.AsciiGraph.GraphTest | libxl/src/XLangMVCView.cpp:233-244 | a cell outside the grid is reported, and nothing else happens |
| XLangMVCView.AsciiGraph.GraphDrawBox | libxl/src/XLangMVCView.cpp:274-280 | the label's characters go on row `l` from column `c + del`; no other cell changes |
| XLangMVCView.AsciiGraph.GraphDrawArrow | libxl/src/XLangMVCView.cpp:282-291 | exactly the arrow's cells get its characters |
| XLangMVCView.AsciiGraph.DrawUpright | libxl/src/XLangMVCView.cpp:287 | a vertical loop writes `|` from row `from` towards row `to`, row `to` left out |
| XLangMVCView.AsciiGraph.DrawAcross | libxl/src/XLangMVCView.cpp:288 | the horizontal loop writes `-` from column `from` towards column `to`, column `to` left out |
| XLangMVCView.AsciiGraph.GraphFinish | libxl/src/XLangMVCView.cpp:255-267 | every row is cut, the graph number moves on by one, and the header and the rows up to the last non-blank one are printed |
| XLangMVCView.AsciiGraph.CutAll | libxl/src/XLangMVCView.cpp:257-262 | the first loop cuts every row |
| XLangMVCView.AsciiGraph.LastRowIndex | libxl/src/XLangMVCView.cpp:263 | the second loop finds the last row to print |
| XLangMVCView.AsciiGraph.CutRowAt | libxl/src/XLangMVCView.cpp:258-261 | one turn cuts row `i` and no other row |
| XLangMVCView.AsciiGraph.PrintRows | libxl/src/XLangMVCView.cpp:265 | the last loop prints the rows in order, each on a line of its own |
| XLangMVCView.AsciiGraph.Ex | libxl/src/XLangMVCView.cpp:124-131 | `ex` draws the tree on a blank grid from its top left corner, prints it as the next graph and returns 0 |
| XLangMVCView.AsciiGraph.PrintGraph | libxl/src/XLangMVCView.cpp:102-106 | `print_graph` prints the graph and then an end of line; a null tree prints a blank graph |
| XLangMVCView.AsciiGraph.ExNode | libxl/src/XLangMVCView.cpp:149-223 | `exNode` returns the end and middle columns of the node's layout, within the grid, and changes no cell outside the node's rectangle |
| XLangMVCView.AsciiGraph.DrawPicture | libxl/src/XLangMVCView.cpp:124-129 | the drawing half of `ex`: a null root leaves a blank grid, any other root leaves its picture, and nothing is printed yet |
| XLangMVCView.AsciiGraph.DrawTree | libxl/src/XLangMVCView.cpp:128 | `exNode(p, 0, 0, ...)` on a blank grid leaves the root's picture |
| XLangMVCView.AsciiGraph.BoxAndArrows | libxl/src/XLangMVCView.cpp:213-222 | the box and the arrow loop change only the rows from the node's down within its span, and leave the label on the node's row |
| XLangMVCView.AsciiGraph.PrintNumbered | libxl/src/XLangMVCView.cpp:263-266 | `graphFinish` prints the graph number, which moves on, then rows `0` to `i`, each on a line of its own |
| XLangMVCView.AsciiGraph.ExSymbol | libxl/src/XLangMVCView.cpp:199-222 | a symbol with children gets the layout's columns and draws only below and right of its start |
| XLangMVCView.AsciiGraph.LayKids | libxl/src/XLangMVCView.cpp:200-204 | the first child loop ends at the start column after the last child, a null child leaving it where it was |
| XLangMVCView.AsciiGraph.DrawKids | libxl/src/XLangMVCView.cpp:217-222 | the second child loop, null children included, draws only below the box and within the node's span |
| XLangMVCView.AsciiGraph.DrawKidTurn | libxl/src/XLangMVCView.cpp:218-221 | one turn of the second child loop moves the start column to the next child's and leaves the arrow to the current middle column on the grid; a null child keeps the previous child's columns |
| XLangMVCView.AsciiGraph.RedrawArrow | libxl/src/XLangMVCView.cpp:220 | drawing an arrow that is already on the grid changes no cell |
| XLangMVCView.AsciiGraph.DrawKid | libxl/src/XLangMVCView.cpp:219-221 | one turn draws the child subtree and its arrow, and returns the child's end and middle columns |
| XLangMVCModel.ConvertKids | libxl/src/XLangMVCModel.cpp:162-164 | one converted child per XML child, in order |
| XLangMVCModel.AttrMapSpec | libxl/src/XLangMVCModel.cpp:140-148 | the attribute map holds exactly the element's attribute names, each with the value of its last occurrence |
| XLangMVCModel.AttrMapEmpty | libxl/src/XLangMVCModel.cpp:149 | read off the definition of the attribute map: it is non-empty exactly when the element has an attribute |
| XLangMVCModel.TermPayloadKinds | libxl/src/XLangMVCModel.cpp:75-104 | the cases of `TermPayload` spelled out: a payload exactly for the five term type names, of the kind the name denotes, and a `string` payload is the XML-unescaped value |
| XLangMVCModel.DocumentShape | libxl/src/XLangMVCModel.cpp:108-125 | the document case of `ConvertNode` spelled out: one child is read as that child's tree; any other document is a symbol with lexer id 0 holding all its children |
| XLangMVCModel.DeclarationKeepsDocument | libxl/src/XLangMVCModel.cpp:126-127 | a declaration counts as a child, so a declaration plus a root element is not collapsed and reads as a symbol whose first child is null |
| XLangMVCModel.NullElement | libxl/src/XLangMVCModel.cpp:132-133 | the `NULL` case of `ConvertNode` spelled out: an element named `NULL` is null whatever it holds |
| XLangMVCModel.SymbolElement | libxl/src/XLangMVCModel.cpp:156-166 | an element whose type name is not a term type is a symbol with one child per XML child, each converted in turn |
| XLangMVCModel.PrintedTermReadsAsSymbol | libxl/src/XLangMVCModel.cpp:149-161 | what `XMLPrinter` writes for a terminal reads back as a childless symbol unless the lexer name is itself a term type name |
| XLangMVCModel.HoldsAt | libxl/src/XLangMVCModel.cpp:106-169 | a built slot is null exactly when its tree is null; otherwise it is a node in the built range carrying the tree's lexer id |
| XLangMVCModel.HoldsFrame | libxl/src/XLangMVCModel.cpp:106-169 | a built tree survives any change that leaves its nodes alone |
| XLangMVCModel.BuiltRanked | libxl/src/XLangMVCModel.cpp:106-169 | a tree built by the reader can be walked by the visitors and printers |
| XLangNode.NewSymbolClosed | app/src/XLangNode.cpp:92-144 | constructing a symbol at a fresh address keeps the arena closed |
| XLangMVCModel.MakeSymbol | libxl/src/XLangMVCModel.cpp:40-54 | `make_symbol` takes the next chunk, with a destructor callback, and builds the flattening symbol there |
| XLangMVCModel.MakeTerm | libxl/src/XLangMVCModel.cpp:56-72 | `make_term` takes the next chunk, with a destructor callback only for STRING and IDENT |
| XLangMVCModel.ReadAttributes | libxl/src/XLangMVCModel.cpp:140-148 | the attribute loop fills the attribute map |
| XLangMVCModel.LogGrownTrans | libxl/src/XLangMVCModel.cpp:121 | destructor-log growth composes |
| XLangMVCModel.TermBuilt | libxl/src/XLangMVCModel.cpp:56-72 | a term at a fresh address realises its payload |
| XLangMVCModel.MakeTermFromTypename | libxl/src/XLangMVCModel.cpp:75-104 | the term for the type name, or null exactly when the name is not a term type, and then nothing is allocated |
| XLangMVCModel.TermValue | libxl/src/XLangMVCModel.cpp:78-102 | the payload handed to `make_term`: a fresh string for `string`, the interned string for `ident` |
| XLangMVCModel.MakeAstFromNode | libxl/src/XLangMVCModel.cpp:106-169 | `_make_ast_from_ticpp` builds a realisation of the tree the XML node converts to, in fresh chunks |
| XLangMVCModel.MakeAstFromElement | libxl/src/XLangMVCModel.cpp:128-167 | the element branch builds a realisation of the converted element |
| XLangMVCModel.MakeAstFromDocument | libxl/src/XLangMVCModel.cpp:108-125 | the document branch builds a realisation of the converted document; with one child the document's chunk is freed and its destructor runs |
| XLangMVCModel.Unwrap | libxl/src/XLangMVCModel.cpp:117-123 | the collapse detaches the child, frees the document symbol's chunk, logs its destructor and returns the child |
| XLangMVCModel.AddKids | libxl/src/XLangMVCModel.cpp:115-116 | the child loop appends the converted children in order |
| XLangMVCModel.AddKid | libxl/src/XLangMVCModel.cpp:164 | one turn appends the next converted child |
| XLangMVCModel.ConvertKidsSnoc | libxl/src/XLangMVCModel.cpp:163-164 | the converted children grow one child per turn |
| XLangMVCModel.MakeAst | libxl/src/XLangMVCModel.cpp:172-181 | with the XML library, `make_ast` gives the read document; without it, null and nothing allocated |
| XLangMVCModel.SymbolStart | libxl/src/XLangMVCModel.cpp:161 | a new symbol with no arguments starts the child loop |
| XLangMVCModel.SymbolBuilt | libxl/src/XLangMVCModel.cpp:165 | when the loop is done the symbol realises its element's or document's tree |
| XLangMVCModel.KidStep | libxl/src/XLangMVCModel.cpp:164 | one turn of the child loop keeps its invariant |
| XLangMVCModel.KidStepOld | libxl/src/XLangMVCModel.cpp:164 | appending the next child keeps the earlier children's realisations |
| XLangMVCModel.KidStepNew | libxl/src/XLangMVCModel.cpp:164 | the appended child is realised and parented to the symbol |
| XLangMVCModel.Collapse | libxl/src/XLangMVCModel.cpp:117-123 | after the child is detached and the document dropped, the child realises its tree on its own, as a root |
| XLangMVCModel.CollapseLaidOut | libxl/src/XLangMVCModel.cpp:120-121 | after the collapse no node points back at the dropped document |
| TryAllParses.PathsMembership | app/src/TryAllParses.cpp:184-219 | a vector is emitted exactly when it picks one valid option index for every word |
| TryAllParses.PathsCount | app/src/TryAllParses.cpp:184-219 | there are as many paths as the product of the row sizes |
| TryAllParses.ProductZero | app/src/TryAllParses.cpp:206-218 | the product is zero exactly when some word has no option |
| TryAllParses.EmptyCases | app/src/TryAllParses.cpp:192-218 | an empty table gives the single empty path; a table with an empty row gives none |
| TryAllParses.PathsSorted | app/src/TryAllParses.cpp:207-218 | paths come out in strictly increasing lexicographic order |
| TryAllParses.PathsExactlyOnce | app/src/TryAllParses.cpp:184-219 | every path of the table is emitted exactly once, and nothing else is |
| TryAllParses.BranchStep | app/src/TryAllParses.cpp:210-217 | pushing option `i`, recursing and popping emits the paths of that branch after the current stack |
| TryAllParses.EmitStack | app/src/TryAllParses.cpp:192-204 | the base case appends the stack, bottom first, as one path and leaves the stack as it was |
| TryAllParses.BuildPosPathsFrom | app/src/TryAllParses.cpp:184-219 | appends the current stack followed by every path of the rows still to go; a null argument does nothing; the stack is left as it was |
| TryAllParses.BuildPosPathsOptions | app/src/TryAllParses.cpp:206-218 | for a word inside the table: appends, option by option, the stack followed by every path of the rows from that word on; the stack is left as it was |
| TryAllParses.BuildPosPaths | app/src/TryAllParses.cpp:221-234 | appends every path of the table in order; a null list does nothing |
| TryAllParses.LexerValue | app/src/TryAllParses.cpp:88-114 | there is a value exactly when the word is non-empty and the lexer gives a non-zero id with a non-empty name |
| TryAllParses.GetPosValuesFromLexer | app/src/TryAllParses.cpp:88-114 | pushes the lexer's name for `[group]<word >` and returns true, or returns false and pushes nothing |
| TryAllParses.LexerLookups | app/src/TryAllParses.cpp:143-154 | the nine lookups push their hits in group order, and `found_match` is true exactly when one of them hit |
| TryAllParses.MergeAt | app/src/TryAllParses.cpp:133-139 | a pass pushes each plain value it was given and had not already seen, exactly once, and remembers everything it was given |
| TryAllParses.MergeFollowed | app/src/TryAllParses.cpp:157-176 | in the lexer pass every `Conj` is immediately followed by `Conj_VP` and `Conj_CS`, and every `Prep` by `Prep_VP` |
| TryAllParses.MergedAnswers | app/src/TryAllParses.cpp:127-181 | the vector is never left empty |
| TryAllParses.PosValues | app/src/TryAllParses.cpp:116-182 | `get_pos_values` fails exactly on the empty word, gives `$` for `.`, and otherwise leaves a non-empty vector |
| TryAllParses.MergeInto | app/src/TryAllParses.cpp:157-176 | the de-duplicating loop appends the pass's output and returns the grown set of seen values |
| TryAllParses.ExpansionPushed | app/src/TryAllParses.cpp:161-175 | the pushes for one new value are the value and its expansion names |
| TryAllParses.MergeAnswers | app/src/TryAllParses.cpp:127-181 | for an ordinary word the body appends the WordNet pass, the lexer pass and the `Noun` fallback |
| TryAllParses.GetPosValues | app/src/TryAllParses.cpp:116-182 | false with nothing pushed for a null vector or an empty word; otherwise true, with the specified values appended |
| TryAllParses.FoundAt | app/src/TryAllParses.cpp:127-177 | the two passes push a value other than the expansion names at most once, and exactly when an oracle offered it |
| TryAllParses.MergedAnswersUnique | app/src/TryAllParses.cpp:127-181 | values other than the expansion names appear at most once; every such value an oracle offered is kept, and nothing else is but the `Noun` fallback |
| TryAllParses.MergedAnswersFallback | app/src/TryAllParses.cpp:179-180 | with no answer at all, an empty vector gets `Noun` and a non-empty one gets nothing |
| TryAllParses.WordnetPassPlain | app/src/TryAllParses.cpp:128-141 | the WordNet pass yields neither `Conj` nor `Prep` |
| TryAllParses.MergedAnswersFollowed | app/src/TryAllParses.cpp:157-176 | every `Conj` and `Prep` of the merge is followed at once by its expansion names; WordNet only offers `Noun`, `Verb`, `Adj` and `Adv`, so both come from the lexer pass |
| TryAllParses.PosValuesMerge | app/src/TryAllParses.cpp:116-182 | for a word other than `""` and `.`, uniqueness, the kept values, the `Noun` fallback and the expansion order, stated in terms of what the WordNet and lexer oracles offer |
| TryAllParses.SentenceTable | app/src/TryAllParses.cpp:242-258 | one row of options per token of the sentence |
| TryAllParses.ValuePath | app/src/TryAllParses.cpp:266-274 | the translated path picks, for every word, one of that word's options |
| TryAllParses.ValuePaths | app/src/TryAllParses.cpp:259-278 | there is one value path per index path |
| TryAllParses.ValuePathsSpec | app/src/TryAllParses.cpp:259-278 | the value paths are exactly the ways of choosing one option per word |
| TryAllParses.SentenceRows | app/src/TryAllParses.cpp:242-260 | every token of a sentence gets at least one option in the table |
| TryAllParses.SentencePaths | app/src/TryAllParses.cpp:242-260 | every token has at least one option, so a sentence always yields at least one value path |
| TryAllParses.PushAll | app/src/TryAllParses.cpp:251-255 | the copying loop appends the values in order |
| TryAllParses.BuildOptionsTable | app/src/TryAllParses.cpp:244-258 | the table has one row per word, each holding what `get_pos_values` gives for that word |
| TryAllParses.SelectValues | app/src/TryAllParses.cpp:268-274 | the inner loop selects `table[i][path[i]]` for every word `i` |
| TryAllParses.AppendValuePaths | app/src/TryAllParses.cpp:262-278 | the translation loop appends the value path of every index path, in order |
| TryAllParses.BuildPosValuePathsFromSentence | app/src/TryAllParses.cpp:236-279 | appends every way of assigning one option to each token of the sentence, in path order; a null list does nothing |

## Left out

- Operating-system plumbing: `libxl/src/XLangSystem.cpp` is not part of this model (signals, `fork`/`exec`, `popen`, backtraces).
- `regexp`, `regsub`, `match_regex` and `read_file` in `libxl/src/XLangString.cpp`: these are POSIX regular expressions and file I/O.
- XML parsing with ticpp: the model converts an abstract document; the `withXml` flag stands for the `TIXML_USE_TICPP` build switch.
- WordNet lookup (the `wn` shell call, sorting by polysemy count, and the base-form retry) and `quick_lex` are oracle parameters. The WordNet oracle's values have the type `WordnetPos`: only `Noun`, `Verb`, `Adj` and `Adv`, the names the C++ code pushes (`app/src/TryAllParses.cpp:58`). A `quick_lex` exception is modelled as `None`.
- `id_to_name`, `name_to_id`, `atoi` and `atof` are oracle parameters.
- Floating point: FLOAT payloads are 32-bit patterns compared bit for bit. The Lisp, XML and DOT printers write a FLOAT with `<<`, which is the oracle `Show.floatText`; `exNode` labels a FLOAT with `sprintf("%f")`, which is the oracle `Labeling.fixed`.
- `uid()` (the text of a pointer address) is the oracle `Show.uid`. The byte size of each node class is the constant `NodeStore.nodeSize`, given to the `NodeStore` constructor.
- Real memory: `malloc`/`free` and placement `new` become a counter that hands out fresh addresses, and destructor callbacks become an event log.
- Machine integers: `int`, `long` and `size_t` are unbounded, so overflow is not modelled.
- Source locations: the `YYLTYPE loc` parameters of the node constructors are dropped.
- `eol()` is modelled as the constructor argument `Arg.Eol`: the same sentinel every time, and distinct from every node.
- The `NodeIdentIFace`/`SymbolNodeIFace` default member bodies (`libxl/include/node/XLangNodeIFace.h:45-64, 113-132`) are not modelled: every concrete node class overrides all of them, so no node in the model can reach them.
- `print_dot_header`/`print_dot_footer` are not separate members: they are part of the DOT text around the root.
- Console output in `graphTest` and `graphFinish` (`printf`, `cerr`) is appended to an output field or dropped.
- The old DFS header `libxl/include/visitor/XLangVisitorDFS.h` does not match `XLangVisitorDFS.cpp`; the model follows the `.cpp`. The default branch for an unknown kind in its `dispatch_visit` cannot be reached with the six kinds, so it is not modelled.
- The old DFS's filtered loop keeps the extra frame it pushes, as the C++ code does.
- The BFS visitor's queue changes all at once, at the end of `next_state`, rather than one element at a time.
- A null or dangling dereference in `compare` and `find` is modelled as the outcome `NullDeref`. The rest of the undefined behaviour is stated as preconditions, not modelled: null children in the annotator; a null first child in `exNode` (a later null child is skipped, keeping the previous child's columns, and is modelled); a null `new_node` in `insert_after`; a node pointer given to a mutator that is not a node of the arena (a dangling pointer); a terminal without a parent in the subtree the DOT printer visits, whose edge line dereferences `parent()` (`TermsParented`, `libxl/src/XLangPrinter.cpp:254-290`); `_free` of an untracked pointer; grid writes outside 200×200; labels longer than 19 characters in `exNode`; a filter that accepts a null slot, whose child both DFS visitors then dereference (`libxl/src/XLangVisitorDFS.cpp:45`, `libxl/src/XLangVisitor.cpp:31`); a document whose only child reads as null, on which `_make_ast_from_ticpp` calls `detach()` (`libxl/src/XLangMVCModel.cpp:119-120`).
- The 2-argument `get_pos_values_from_lexer` declared in `TryAllParses.h` has no definition; calls to it are modelled as a lookup of group `""`.
- A negative `word_index` passed to the four-argument `build_pos_paths_from_pos_options` is cast to a huge `size_t` (`app/src/TryAllParses.cpp:188-192`), so it reads like the end of the table and the current stack is emitted as it is (`Remaining`, `BuildPosPathsFrom`).
- `test_build_pos_value_paths` only prints, so it is not modelled.
- The `cerr` diagnostics of `app/src/TryAllParses.cpp` are dropped: the WordNet-not-found `ERROR` line (line 52), the `quick_lex` exception `ERROR` line (line 107), and the `INFO` listing of the options table and of each value path in `build_pos_value_paths_from_sentence` (lines 248-275).
- Characters: a Dafny `char` is a Unicode scalar value, while `std::string` holds bytes. `escape`, `tokenize` and the content order of interned strings (`LexLess`) therefore agree with the C++ code only on text whose bytes are the characters, such as ASCII; UTF-8 multi-byte sequences are not modelled.
- XLangNode.CompareReflexive: holds because FLOAT payloads are compared as bit patterns. In the C++ code `m_value ==` compares `float`s, so a NaN term is not equal to itself, and `-0.0` equals `+0.0` although their bit patterns differ.
- XLangNode.CloneCompares: holds because FLOAT payloads are compared as bit patterns. In the C++ code a clone of a NaN FLOAT term does not compare equal to its source.
- TryAllParses.MergedAnswersUnique: uniqueness is proved only for names other than `Conj_VP`, `Conj_CS` and `Prep_VP`, because the C++ code pushes those expansions without checking for duplicates.
- TryAllParses.PosValuesMerge: carries the same uniqueness restriction as MergedAnswersUnique.
- XLangVisitor.VisitorDFS.MaxChildHeight: a null child reads as height 0.
- XLangMVCView.AsciiGraph.ExNode: the contract states the placement (`ce`, `cm`, `cbar`), the box label and the frame, not every grid cell the recursion draws.
- XLangMVCModel.MakeAstFromDocument: the destructor log is stated as a grown range, plus the last entry when a one-child document collapses.
