/** The node interface of `XLangNodeIFace.h`: the six node kinds, the mapping between term
  * kinds and their payload types, and the two built-in predicates every node has. */
module XLangNodeIFace {
  import opened Wrappers

  /** `NodeIdentIFace::type_t` */
  datatype Kind = INT | FLOAT | STRING | CHAR | IDENT | SYMBOL

  /** The C++ types the `TermInternalType` / `TermType` templates relate: `long`, `float32_t`,
    * `std::string*`, `char`, `const std::string*` and `NodeIdentIFace*`. */
  datatype PayloadType = Long | Float32 | StringPtr | Char | ConstStringPtr | NodePtr

  /** `TermInternalType<k>::type` */
  function TermInternalType(k: Kind): (t: PayloadType)
    ensures TermType(t) == k
  {
    match k
    case INT => Long
    case FLOAT => Float32
    case STRING => StringPtr
    case CHAR => Char
    case IDENT => ConstStringPtr
    case SYMBOL => NodePtr
  }

  /** `TermType<t>::type` */
  function TermType(t: PayloadType): (k: Kind)
  {
    match t
    case Long => INT
    case Float32 => FLOAT
    case StringPtr => STRING
    case Char => CHAR
    case ConstStringPtr => IDENT
    case NodePtr => SYMBOL
  }

  /** The two mappings are inverse to each other in both directions. */
  lemma TermTypesInverse()
    ensures forall k :: TermType(TermInternalType(k)) == k
    ensures forall t :: TermInternalType(TermType(t)) == t
  {
    forall t ensures TermInternalType(TermType(t)) == t {
      match t
      case Long =>
      case Float32 =>
      case StringPtr =>
      case Char =>
      case ConstStringPtr =>
      case NodePtr =>
    }
  }

  /** `is_same_type`: same kind and same lexer id. */
  predicate IsSameType(k1: Kind, id1: nat, k2: Kind, id2: nat)
  {
    k1 == k2 && id1 == id2
  }

  /** `is_same_type` is an equivalence: reflexive, symmetric and transitive. */
  lemma IsSameTypeEquivalence(k1: Kind, id1: nat, k2: Kind, id2: nat, k3: Kind, id3: nat)
    ensures IsSameType(k1, id1, k1, id1)
    ensures IsSameType(k1, id1, k2, id2) ==> IsSameType(k2, id2, k1, id1)
    ensures IsSameType(k1, id1, k2, id2) && IsSameType(k2, id2, k3, id3) ==> IsSameType(k1, id1, k3, id3)
  {
  }

  /** `is_root`: a node is a root exactly when it has no parent (`parent` is null). */
  predicate IsRoot<P>(parent: Option<P>)
  {
    parent.None?
  }
}
