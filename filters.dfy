/** The element filter algebra (`FilterDefinition`), its evaluation
    (`wrapperFilter`/`resolveFilter` in `Parsing.kt`, identical for wrapped
    and resolved elements) and the builder functions of `FilterDsl`. */
module Filters {
  import opened Wrappers
  import opened Text

  datatype FilterableType = ClassType | MethodType | FieldType | TypeType | NamespaceType
  datatype HierarchyTarget = ParentTarget | BaseTarget | AnyChild | AllChildren
  datatype MatcherType = StartsWithMatch | ContainsMatch | EqualsMatch | EndsWithMatch | RegexMatch
  datatype StringMatcher = StringMatcher(kind: MatcherType, str: string)
  datatype Selector =
    | Stringify | ClassName | ClassQualified | MethodName | MethodTypeName | MethodReturnType | NamespaceName

  datatype Filter =
    | DefaultFilter
    | TypeFilter(types: seq<FilterableType>)
    | AndFilter(elements: seq<Filter>)
    | OrFilter(elements: seq<Filter>)
    | NotFilter(base: Filter)
    | HierarchyFilter(target: HierarchyTarget, filter: Filter)
    | StringFilter(selector: Selector, matcher: StringMatcher)

  // ---------------------------------------------------------------------
  // The elements a filter looks at

  /** What a filter sees of one element: its kind (none for arguments,
      bases and the like), the strings each selector picks (absent where
      the selector gives `null`), its parent, its top-most ancestor
      (`baseParent`, the element itself for a root) and its children. */
  datatype Node = Node(
    kind: Option<FilterableType>,
    selected: map<Selector, string>,
    parent: Option<nat>,
    base: nat,
    children: seq<nat>)

  /** The elements by identity, and the regular-expression matcher
      (`Regex(pattern).matches(input)`), which is not part of this model. */
  datatype World = World(nodes: map<nat, Node>, regex: (string, string) -> bool)

  function Select(n: Node, s: Selector): Option<string> {
    if s in n.selected then Some(n.selected[s]) else None
  }

  /** `StringMatcher.matches`: a `null` input never matches. */
  function Matches(m: StringMatcher, input: Option<string>, regex: (string, string) -> bool): (r: bool)
    ensures input.None? ==> !r
  {
    if input.None? then false
    else match m.kind
      case StartsWithMatch => StartsWith(input.value, m.str)
      case ContainsMatch => Contains(input.value, m.str)
      case EqualsMatch => input.value == m.str
      case EndsWithMatch => EndsWith(input.value, m.str)
      case RegexMatch => regex(m.str, input.value)
  }

  lemma NullNeverMatches(m: StringMatcher, regex: (string, string) -> bool)
    ensures !Matches(m, None, regex)
  {
  }

  // ---------------------------------------------------------------------
  // Evaluation

  predicate HasDefault(f: Filter) {
    match f
    case DefaultFilter => true
    case AndFilter(es) => exists i :: 0 <= i < |es| && HasDefault(es[i])
    case OrFilter(es) => exists i :: 0 <= i < |es| && HasDefault(es[i])
    case NotFilter(b) => HasDefault(b)
    case HierarchyFilter(_, g) => HasDefault(g)
    case _ => false
  }

  function Rank(f: Filter): nat {
    if HasDefault(f) then 1 else 0
  }

  /** `defaultFilter()`, as the builder functions below produce it
      (`DefaultBuiltByDsl`). */
  const DEFAULT_FILTER: Filter := OrFilter([
    AndFilter([
      TypeFilter([ClassType]),
      NotFilter(StringFilter(ClassQualified, StringMatcher(StartsWithMatch, "std::"))),
      NotFilter(StringFilter(ClassQualified, StringMatcher(StartsWithMatch, "__")))
    ]),
    AndFilter([
      TypeFilter([MethodType]),
      StringFilter(MethodTypeName, StringMatcher(EqualsMatch, "STATIC")),
      NotFilter(HierarchyFilter(ParentTarget, TypeFilter([ClassType]))),
      HierarchyFilter(BaseTarget, NotFilter(StringFilter(Stringify, StringMatcher(StartsWithMatch, "std")))),
      HierarchyFilter(ParentTarget, NotFilter(AndFilter([
        TypeFilter([NamespaceType]),
        StringFilter(NamespaceName, StringMatcher(StartsWithMatch, "_"))
      ])))
    ])
  ])

  lemma DefaultIsPlain()
    ensures !HasDefault(DEFAULT_FILTER)
  {
    var a := DEFAULT_FILTER.elements[0];
    var b := DEFAULT_FILTER.elements[1];
    assert !HasDefault(a) by {
      assert forall i :: 0 <= i < |a.elements| ==> !HasDefault(a.elements[i]);
    }
    assert !HasDefault(b) by {
      NamespaceTestPlain();
      assert forall i :: 0 <= i < |b.elements| ==> !HasDefault(b.elements[i]);
    }
  }

  lemma NamespaceTestPlain()
    ensures !HasDefault(DEFAULT_FILTER.elements[1].elements[4])
  {
    var inner := DEFAULT_FILTER.elements[1].elements[4].filter.base;
    assert forall i :: 0 <= i < |inner.elements| ==> !HasDefault(inner.elements[i]);
  }

  /** The filter as a test on element `id` (an identity that names no
      element, which object references rule out, passes nothing). */
  function Eval(f: Filter, w: World, id: nat): bool
    decreases Rank(f), f, 1
  {
    if id !in w.nodes then false
    else
    var n := w.nodes[id];
    match f
    case DefaultFilter => EvalDefault(w, id)
    case TypeFilter(types) => n.kind.Some? && n.kind.value in types
    case AndFilter(es) => forall i :: 0 <= i < |es| ==> Eval(es[i], w, id)
    case OrFilter(es) => exists i :: 0 <= i < |es| && Eval(es[i], w, id)
    case NotFilter(b) => !Eval(b, w, id)
    case HierarchyFilter(target, g) =>
      (match target
       case ParentTarget => n.parent.Some? && Eval(g, w, n.parent.value)
       case BaseTarget => Eval(g, w, n.base)
       case AnyChild => exists i :: 0 <= i < |n.children| && Eval(g, w, n.children[i])
       case AllChildren => forall i :: 0 <= i < |n.children| ==> Eval(g, w, n.children[i]))
    case StringFilter(sel, m) => Matches(m, Select(n, sel), w.regex)
  }

  /** `DefaultFilter` evaluates the filter `defaultFilter()` builds. */
  function EvalDefault(w: World, id: nat): bool
    decreases 1, DefaultFilter, 0
  {
    DefaultIsPlain();
    Eval(DEFAULT_FILTER, w, id)
  }

  /** A parent filter is false on an element without a parent. */
  lemma ParentOfRoot(g: Filter, w: World, id: nat)
    requires id in w.nodes && w.nodes[id].parent.None?
    ensures !Eval(HierarchyFilter(ParentTarget, g), w, id)
  {
  }

  /** With no children, "all children" holds and "any child" does not. */
  lemma ChildlessElement(g: Filter, w: World, id: nat)
    requires id in w.nodes && |w.nodes[id].children| == 0
    ensures Eval(HierarchyFilter(AllChildren, g), w, id)
    ensures !Eval(HierarchyFilter(AnyChild, g), w, id)
  {
  }

  /** Not is negation; an empty conjunction holds and an empty disjunction
      does not. */
  lemma Connectives(a: Filter, w: World, id: nat)
    requires id in w.nodes
    ensures Eval(NotFilter(a), w, id) == !Eval(a, w, id)
    ensures Eval(AndFilter([]), w, id) && !Eval(OrFilter([]), w, id)
  {
  }

  // ---------------------------------------------------------------------
  // The builders of `FilterDsl`

  datatype ElementTarget = This | Parent | Base | Child | AllChildrenOf

  /** `ElementTarget.wrap`: `THIS` leaves the filter alone, every other
      target wraps it in a hierarchy filter. */
  function Wrap(t: ElementTarget, f: Filter): Filter {
    match t
    case This => f
    case Parent => HierarchyFilter(ParentTarget, f)
    case Base => HierarchyFilter(BaseTarget, f)
    case Child => HierarchyFilter(AnyChild, f)
    case AllChildrenOf => HierarchyFilter(AllChildren, f)
  }

  /** What a wrapped filter tests. */
  lemma WrapMeaning(t: ElementTarget, f: Filter, w: World, id: nat)
    requires id in w.nodes
    ensures var n := w.nodes[id]; Eval(Wrap(t, f), w, id) == match t
      case This => Eval(f, w, id)
      case Parent => n.parent.Some? && Eval(f, w, n.parent.value)
      case Base => Eval(f, w, n.base)
      case Child => exists i :: 0 <= i < |n.children| && Eval(f, w, n.children[i])
      case AllChildrenOf => forall i :: 0 <= i < |n.children| ==> Eval(f, w, n.children[i])
  {
  }

  function AndParts(f: Filter): seq<Filter> {
    if f.AndFilter? then f.elements else [f]
  }

  function OrParts(f: Filter): seq<Filter> {
    if f.OrFilter? then f.elements else [f]
  }

  /** `and`: the operands' own conjuncts are spliced into one list. */
  function And(a: Filter, b: Filter): (r: Filter)
    ensures r.AndFilter? && |r.elements| == |AndParts(a)| + |AndParts(b)|
  {
    AndFilter(AndParts(a) + AndParts(b))
  }

  /** `or`: the same with disjuncts. */
  function Or(a: Filter, b: Filter): (r: Filter)
    ensures r.OrFilter? && |r.elements| == |OrParts(a)| + |OrParts(b)|
  {
    OrFilter(OrParts(a) + OrParts(b))
  }

  /** `plus` is `and`. */
  function Plus(a: Filter, b: Filter): Filter {
    And(a, b)
  }

  function Not(a: Filter): Filter {
    NotFilter(a)
  }

  /** `isType`: a type filter on the target. */
  function IsType(t: ElementTarget, ft: FilterableType): Filter {
    Wrap(t, TypeFilter([ft]))
  }

  /** `isType` on the element itself holds exactly for an element of that
      type; on any other target it tests that type through the target. */
  lemma IsTypeMeaning(t: ElementTarget, ft: FilterableType, w: World, id: nat)
    requires id in w.nodes
    ensures Eval(IsType(This, ft), w, id) <==> w.nodes[id].kind == Some(ft)
    ensures Eval(IsType(t, ft), w, id) == Eval(Wrap(t, TypeFilter([ft])), w, id)
  {
    WrapMeaning(This, TypeFilter([ft]), w, id);
  }

  /** `eq`, `contains`, `startsWith`, `endsWith` and `regex`. */
  function Eq(s: Selector, str: string): Filter { StringFilter(s, StringMatcher(EqualsMatch, str)) }
  function ContainsText(s: Selector, str: string): Filter { StringFilter(s, StringMatcher(ContainsMatch, str)) }
  function StartsWithText(s: Selector, str: string): Filter { StringFilter(s, StringMatcher(StartsWithMatch, str)) }
  function EndsWithText(s: Selector, str: string): Filter { StringFilter(s, StringMatcher(EndsWithMatch, str)) }
  function RegexText(s: Selector, str: string): Filter { StringFilter(s, StringMatcher(RegexMatch, str)) }

  /** Each string builder tests the selected string as its name says. */
  lemma StringBuildersMeaning(s: Selector, str: string, w: World, id: nat)
    requires id in w.nodes
    ensures var v := Select(w.nodes[id], s);
      && (Eval(Eq(s, str), w, id) <==> v == Some(str))
      && (Eval(ContainsText(s, str), w, id) <==> v.Some? && Contains(v.value, str))
      && (Eval(StartsWithText(s, str), w, id) <==> v.Some? && StartsWith(v.value, str))
      && (Eval(EndsWithText(s, str), w, id) <==> v.Some? && EndsWith(v.value, str))
      && (Eval(RegexText(s, str), w, id) <==> v.Some? && w.regex(str, v.value))
  {
  }

  lemma {:induction false} AndPartsMeaning(f: Filter, w: World, id: nat)
    requires id in w.nodes
    ensures (forall i :: 0 <= i < |AndParts(f)| ==> Eval(AndParts(f)[i], w, id)) == Eval(f, w, id)
  {
    if !f.AndFilter? {
      var ps := AndParts(f);
      assert ps == [f] && ps[0] == f;
      assert (forall i :: 0 <= i < |ps| ==> Eval(ps[i], w, id)) <==> Eval(ps[0], w, id);
    } else {
      assert AndParts(f) == f.elements;
      assert Eval(f, w, id) == (forall i :: 0 <= i < |f.elements| ==> Eval(f.elements[i], w, id));
    }
  }

  lemma {:induction false} OrPartsMeaning(f: Filter, w: World, id: nat)
    requires id in w.nodes
    ensures (exists i :: 0 <= i < |OrParts(f)| && Eval(OrParts(f)[i], w, id)) == Eval(f, w, id)
  {
    if !f.OrFilter? {
      assert OrParts(f) == [f];
      if Eval(f, w, id) {
        assert OrParts(f)[0] == f;
      }
    } else {
      assert OrParts(f) == f.elements;
      assert Eval(f, w, id) == (exists i :: 0 <= i < |f.elements| && Eval(f.elements[i], w, id));
    }
  }

  predicate AllHold(fs: seq<Filter>, w: World, id: nat) {
    forall i :: 0 <= i < |fs| ==> Eval(fs[i], w, id)
  }

  predicate SomeHolds(fs: seq<Filter>, w: World, id: nat) {
    exists i :: 0 <= i < |fs| && Eval(fs[i], w, id)
  }

  lemma AllHoldConcat(p: seq<Filter>, q: seq<Filter>, w: World, id: nat)
    ensures AllHold(p + q, w, id) == (AllHold(p, w, id) && AllHold(q, w, id))
  {
    assert forall i :: 0 <= i < |p| ==> (p + q)[i] == p[i];
    assert forall i :: 0 <= i < |q| ==> (p + q)[|p| + i] == q[i];
  }

  lemma SomeHoldsConcat(p: seq<Filter>, q: seq<Filter>, w: World, id: nat)
    ensures SomeHolds(p + q, w, id) == (SomeHolds(p, w, id) || SomeHolds(q, w, id))
  {
    assert forall i :: 0 <= i < |p| ==> (p + q)[i] == p[i];
    assert forall i :: 0 <= i < |q| ==> (p + q)[|p| + i] == q[i];
    if SomeHolds(p + q, w, id) {
      var i :| 0 <= i < |p + q| && Eval((p + q)[i], w, id);
      if i >= |p| {
        assert (p + q)[i] == q[i - |p|];
      }
    }
  }

  /** Flattening keeps the meaning: `a and b` holds iff both do. */
  lemma AndMeaning(a: Filter, b: Filter, w: World, id: nat)
    requires id in w.nodes
    ensures Eval(And(a, b), w, id) == (Eval(a, w, id) && Eval(b, w, id))
    ensures Eval(Plus(a, b), w, id) == (Eval(a, w, id) && Eval(b, w, id))
  {
    AndPartsMeaning(a, w, id);
    AndPartsMeaning(b, w, id);
    AllHoldConcat(AndParts(a), AndParts(b), w, id);
    assert Eval(And(a, b), w, id) == AllHold(AndParts(a) + AndParts(b), w, id);
  }

  /** `a or b` holds iff either does. */
  lemma OrMeaning(a: Filter, b: Filter, w: World, id: nat)
    requires id in w.nodes
    ensures Eval(Or(a, b), w, id) == (Eval(a, w, id) || Eval(b, w, id))
  {
    OrPartsMeaning(a, w, id);
    OrPartsMeaning(b, w, id);
    SomeHoldsConcat(OrParts(a), OrParts(b), w, id);
    assert Eval(Or(a, b), w, id) == SomeHolds(OrParts(a) + OrParts(b), w, id);
  }

  /** Chained `and`s give one flat list whichever way they are grouped. */
  lemma AndAssociative(a: Filter, b: Filter, c: Filter)
    ensures And(And(a, b), c) == And(a, And(b, c))
  {
    assert AndParts(a) + AndParts(b) + AndParts(c) == AndParts(a) + (AndParts(b) + AndParts(c));
  }

  /** `defaultFilter()` is what its builder expression produces. */
  lemma DefaultBuiltByDsl()
    ensures DEFAULT_FILTER ==
      Or(
        And(And(IsType(This, ClassType), Not(StartsWithText(ClassQualified, "std::"))),
          Not(StartsWithText(ClassQualified, "__"))),
        And(And(And(And(IsType(This, MethodType), Eq(MethodTypeName, "STATIC")),
          Not(IsType(Parent, ClassType))),
          Wrap(Base, Not(StartsWithText(Stringify, "std")))),
          Wrap(Parent, Not(And(IsType(This, NamespaceType), StartsWithText(NamespaceName, "_"))))))
  {
    var a := DEFAULT_FILTER.elements[0];
    var b := DEFAULT_FILTER.elements[1];
    var ns := And(IsType(This, NamespaceType), StartsWithText(NamespaceName, "_"));
    assert ns == b.elements[4].filter.base;
    var c := And(And(IsType(This, ClassType), Not(StartsWithText(ClassQualified, "std::"))),
      Not(StartsWithText(ClassQualified, "__")));
    assert c.elements == a.elements;
    var m1 := And(IsType(This, MethodType), Eq(MethodTypeName, "STATIC"));
    var m2 := And(m1, Not(IsType(Parent, ClassType)));
    var m3 := And(m2, Wrap(Base, Not(StartsWithText(Stringify, "std"))));
    var m := And(m3, Wrap(Parent, Not(ns)));
    assert m.elements == b.elements;
    assert Or(c, m).elements == [a, b];
  }

  /** Evaluation of a two-way disjunction. */
  lemma OrPair(x: Filter, y: Filter, w: World, id: nat)
    requires id in w.nodes
    ensures Eval(OrFilter([x, y]), w, id) == (Eval(x, w, id) || Eval(y, w, id))
  {
    assert [x, y][0] == x && [x, y][1] == y;
  }

  /** The class half of the default filter. */
  lemma ClassBranch(w: World, id: nat)
    requires id in w.nodes && w.nodes[id].kind == Some(ClassType)
    ensures var q := Select(w.nodes[id], ClassQualified);
      Eval(DEFAULT_FILTER.elements[0], w, id) <==>
        !(q.Some? && StartsWith(q.value, "std::")) && !(q.Some? && StartsWith(q.value, "__"))
  {
    var a := DEFAULT_FILTER.elements[0];
    assert Eval(a.elements[0], w, id);
    assert Eval(a, w, id) <==> Eval(a.elements[1], w, id) && Eval(a.elements[2], w, id);
  }

  /** The method half of the default filter needs a method. */
  lemma MethodBranch(w: World, id: nat)
    requires id in w.nodes && w.nodes[id].kind != Some(MethodType)
    ensures !Eval(DEFAULT_FILTER.elements[1], w, id)
  {
    var b := DEFAULT_FILTER.elements[1];
    assert !Eval(b.elements[0], w, id);
  }

  /** On a class, the default filter rejects exactly the qualified names
      that start with `std::` or `__`. */
  lemma DefaultOnClass(w: World, id: nat)
    requires id in w.nodes && w.nodes[id].kind == Some(ClassType)
    ensures var q := Select(w.nodes[id], ClassQualified);
      Eval(DefaultFilter, w, id) <==>
        !(q.Some? && StartsWith(q.value, "std::")) && !(q.Some? && StartsWith(q.value, "__"))
  {
    OrPair(DEFAULT_FILTER.elements[0], DEFAULT_FILTER.elements[1], w, id);
    MethodBranch(w, id);
    ClassBranch(w, id);
  }

  /** An element that is neither a class nor a method never passes the
      default filter. */
  lemma DefaultOnOthers(w: World, id: nat)
    requires id in w.nodes
    requires w.nodes[id].kind != Some(ClassType) && w.nodes[id].kind != Some(MethodType)
    ensures !Eval(DefaultFilter, w, id)
  {
    var a := DEFAULT_FILTER.elements[0];
    OrPair(a, DEFAULT_FILTER.elements[1], w, id);
    MethodBranch(w, id);
    assert !Eval(a, w, id) by { assert !Eval(a.elements[0], w, id); }
  }
}
