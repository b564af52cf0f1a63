/** The parsing-side helpers that run before resolution: the signature string
    of a wrapped method, the removal of methods whose signature repeats, the
    default filter on wrapped elements and the template-argument mapping
    built when a template is instantiated. */
module Parsing {
  import opened Wrappers
  import opened Text
  import opened CppTypes
  import opened CppTypeParse
  import Decimal
  import opened Methods
  import opened Dedup
  import opened WrappedElements
  import opened ElementTrees

  // ---------------------------------------------------------------------
  // generateSignatureString

  /** `MethodType.ordinal`. */
  function Ordinal(t: MethodType): nat {
    match t
    case Constructor => 0
    case Destructor => 1
    case Method => 2
    case StaticOp => 3
    case Static => 4
    case SizeOf => 5
  }

  /** `maybeUnconst.maybeUnreferenced`: const is dropped first, then the
      reference. */
  function Normalized(t: CppType): (r: CppType)
    ensures !IsConst(t) && !IsReference(t) ==> r == t
  {
    var u := if IsConst(t) then Unconst(t).value else t;
    if IsReference(u) then Unreferenced(u).value else u
  }

  /** One "type," entry per argument. */
  function ArgsSignature(args: seq<Argument>): string {
    if |args| == 0 then "" else ToString(Normalized(args[0].argType)) + "," + ArgsSignature(args[1..])
  }

  /** `generateSignatureString`: the ordinal, '#', the name, ',' and then the
      normalized argument types, each followed by ','. */
  function SignatureString(m: MethodDecl): string {
    Decimal.Render(Ordinal(m.methodType)) + "#" + m.name + "," + ArgsSignature(m.args)
  }

  /** A type that is neither const nor a reference normalizes to itself,
      and so do its const, reference, const reference and reference-to-const
      forms. */
  lemma NormalizeForms(t: CppType)
    requires !IsConst(t) && !IsReference(t)
    ensures Normalized(t) == t
    ensures Normalized(Const(t)) == t
    ensures Normalized(ReferenceTo(t)) == t
    ensures Normalized(Const(ReferenceTo(t))) == t
    ensures Normalized(ReferenceTo(Const(t))) == t
  {
  }

  lemma {:induction false} ArgsSignatureAgree(a: seq<Argument>, b: seq<Argument>)
    requires |a| == |b|
    requires forall i :: 0 <= i < |a| ==> Normalized(a[i].argType) == Normalized(b[i].argType)
    ensures ArgsSignature(a) == ArgsSignature(b)
  {
    if |a| > 0 {
      ArgsSignatureAgree(a[1..], b[1..]);
    }
  }

  /** Two declarations of the same kind and name whose argument types agree
      up to const and reference have the same signature (argument names,
      usrs and default values play no part either). */
  lemma SignatureIgnoresConstRef(m: MethodDecl, n: MethodDecl)
    requires m.methodType == n.methodType && m.name == n.name && |m.args| == |n.args|
    requires forall i :: 0 <= i < |m.args| ==> Normalized(m.args[i].argType) == Normalized(n.args[i].argType)
    ensures SignatureString(m) == SignatureString(n)
  {
    ArgsSignatureAgree(m.args, n.args);
  }

  lemma RenderOrdinal(t: MethodType)
    ensures Decimal.Render(Ordinal(t)) == [Decimal.DigitChar(Ordinal(t))]
  {
  }

  /** A comma-free text followed by ',' is never a proper prefix of another
      comma-free text. */
  lemma CommaAfterShorter(a: string, x: string, b: string, y: string)
    requires ',' !in b && |a| < |b|
    ensures a + "," + x != b + "," + y
  {
    assert (a + "," + x)[|a|] == ',';
    assert (b + "," + y)[|a|] == b[|a|];
  }

  /** The text before the first ',' is determined when neither name holds
      a comma. */
  lemma CommaSplit(a: string, x: string, b: string, y: string)
    requires ',' !in a && ',' !in b
    requires a + "," + x == b + "," + y
    ensures a == b && x == y
  {
    if |a| < |b| {
      CommaAfterShorter(a, x, b, y);
      assert false;
    } else if |b| < |a| {
      CommaAfterShorter(b, y, a, x);
      assert false;
    } else {
      var s := a + "," + x;
      assert a == s[..|a|] == b;
      assert x == s[|a| + 1..] == y;
    }
  }

  /** The signature tells the method kinds apart, and, for names without a
      comma, the names too: methods of different kinds or names never count
      as duplicates of each other. */
  lemma SignatureSeparates(m: MethodDecl, n: MethodDecl)
    requires ',' !in m.name && ',' !in n.name
    requires SignatureString(m) == SignatureString(n)
    ensures m.methodType == n.methodType && m.name == n.name
  {
    SignatureShape(m);
    SignatureShape(n);
    SignatureText(Decimal.DigitChar(Ordinal(m.methodType)), Decimal.DigitChar(Ordinal(n.methodType)),
      m.name, n.name, ArgsSignature(m.args), ArgsSignature(n.args));
    OrdinalDigit(m.methodType, n.methodType);
  }

  /** A digit, `#`, a comma-free name, `,` and a tail: equal texts have the
      same digit and the same name. */
  lemma SignatureText(c: char, d: char, x: string, y: string, a: string, b: string)
    requires ',' !in x && ',' !in y
    requires [c] + ("#" + (x + "," + a)) == [d] + ("#" + (y + "," + b))
    ensures c == d && x == y
  {
    var l, r := [c] + ("#" + (x + "," + a)), [d] + ("#" + (y + "," + b));
    assert l[0] == c && r[0] == d;
    assert l[2..] == x + "," + a && r[2..] == y + "," + b;
    CommaSplit(x, a, y, b);
  }

  /** Different method kinds have different ordinal digits. */
  lemma OrdinalDigit(a: MethodType, b: MethodType)
    requires Decimal.DigitChar(Ordinal(a)) == Decimal.DigitChar(Ordinal(b))
    ensures a == b
  {
  }

  /** The ordinal is one digit, so the signature is that digit, `#` and the
      rest. */
  lemma SignatureShape(m: MethodDecl)
    ensures SignatureString(m) == [Decimal.DigitChar(Ordinal(m.methodType))] + ("#" + (m.name + "," + ArgsSignature(m.args)))
  {
    RenderOrdinal(m.methodType);
  }

  lemma ArgsSignatureTwo(a: Argument, b: Argument)
    ensures ArgsSignature([a, b]) == ToString(Normalized(a.argType)) + "," + ToString(Normalized(b.argType)) + ","
  {
    var x := ToString(Normalized(a.argType));
    var y := ToString(Normalized(b.argType));
    assert [a, b][1..] == [b];
    assert [b][1..] == [];
    assert ArgsSignature([b]) == y + "," + "";
    assert ArgsSignature([a, b]) == x + "," + (y + "," + "");
    assert x + "," + (y + "," + "") == x + "," + y + ",";
  }

  /** `getAll(int, std::string)` has the signature "2#getAll,int,std::string,". */
  lemma PlainSignatureExample()
    ensures SignatureString(MethodDecl("getAll", Ref("int"), Method,
      [Argument("x", Ref("int"), "u3", false), Argument("y", Ref("std::string"), "u4", true)]))
      == "2#getAll,int,std::string,"
  {
    var n := MethodDecl("getAll", Ref("int"), Method,
      [Argument("x", Ref("int"), "u3", false), Argument("y", Ref("std::string"), "u4", true)]);
    assert "std::string"[..|CONST_PREFIX|][0] != CONST_PREFIX[0];
    assert Normalized(Ref("std::string")) == Ref("std::string");
    ArgsSignatureTwo(n.args[0], n.args[1]);
    RenderOrdinal(Method);
  }

  /** `getAll(int, const std::string&)` shares that signature. */
  lemma ConstRefSignatureExample()
    ensures SignatureString(MethodDecl("getAll", VOID, Method,
      [Argument("a", Ref("int"), "u1", false), Argument("b", ReferenceTo(Const(Ref("std::string"))), "u2", false)]))
      == "2#getAll,int,std::string,"
  {
    var m := MethodDecl("getAll", VOID, Method,
      [Argument("a", Ref("int"), "u1", false), Argument("b", ReferenceTo(Const(Ref("std::string"))), "u2", false)]);
    var n := MethodDecl("getAll", Ref("int"), Method,
      [Argument("x", Ref("int"), "u3", false), Argument("y", Ref("std::string"), "u4", true)]);
    assert "std::string"[..|CONST_PREFIX|][0] != CONST_PREFIX[0];
    NormalizeForms(Ref("std::string"));
    PlainSignatureExample();
    SignatureIgnoresConstRef(m, n);
  }

  // ---------------------------------------------------------------------
  // removeDuplicateMethods

  /** Methods (constructors and destructors included) are keyed by their
      signature; any other element has no key and is never removed. */
  function MethodKey(k: WrappedKind): (r: Option<string>)
    ensures r.Some? <==> MethodOf(k).Some?
  {
    var m := MethodOf(k);
    if m.Some? then Some(SignatureString(m.value)) else None
  }

  function ElementKey(e: WrappedElement): Option<string> {
    MethodKey(e.kind)
  }

  /** The pass `removeDuplicateMethods` makes over one class: every method
      of a snapshot of the children is checked in order against the
      signatures seen so far, and removed when its signature was seen. The
      descent into the children is modelled on trees by `DedupTree`. */
  method RemoveDuplicateMethods(e: WrappedElement)
    modifies e
    ensures !e.kind.ClassKind? ==> e.children == old(e.children)
    ensures e.kind.ClassKind? ==> e.children == RemoveEach(old(e.children), Dropped(old(e.children), ElementKey))
    ensures e.kind.ClassKind? && Distinct(old(e.children)) ==> e.children == Kept(old(e.children), ElementKey)
    ensures e.parent == old(e.parent) && e.Marks() == old(e.Marks())
  {
    if e.kind.ClassKind? {
      var cs := e.children;
      var seen: set<string> := {};
      for i := 0 to |cs|
        invariant seen == Seen(cs[..i], ElementKey)
        invariant e.children == RemoveEach(cs, Dropped(cs[..i], ElementKey))
        invariant e.parent == old(e.parent) && e.Marks() == old(e.Marks())
      {
        PassSeen(cs, i, ElementKey);
        PassDropped(cs, i, ElementKey);
        var m := MethodOf(cs[i].kind);
        if m.Some? {
          var signature := SignatureString(m.value);
          if signature in seen {
            e.RemoveChild(cs[i]);
          }
          seen := seen + {signature};
        }
      }
      assert cs[..|cs|] == cs;
      if Distinct(cs) {
        RemovingDroppedKeepsFirst(cs, ElementKey);
      }
    }
  }

  /** One step of the pass: the element's signature joins the seen ones. */
  lemma PassSeen<T>(cs: seq<T>, i: nat, key: T -> Option<string>)
    requires i < |cs|
    ensures Seen(cs[..i + 1], key) == Seen(cs[..i], key) + (if key(cs[i]).Some? then {key(cs[i]).value} else {})
  {
    assert cs[..i + 1] == cs[..i] + [cs[i]];
    SeenSnoc(cs[..i], cs[i], key);
  }

  /** One step of the pass: the element is removed exactly when it repeats
      a seen signature. */
  lemma PassDropped<T>(cs: seq<T>, i: nat, key: T -> Option<string>)
    requires i < |cs|
    ensures Repeats(cs[..i], cs[i], key) ==>
      RemoveEach(cs, Dropped(cs[..i + 1], key)) == RemoveOne(RemoveEach(cs, Dropped(cs[..i], key)), cs[i])
    ensures !Repeats(cs[..i], cs[i], key) ==> Dropped(cs[..i + 1], key) == Dropped(cs[..i], key)
  {
    var d := Dropped(cs[..i], key);
    assert cs[..i + 1] == cs[..i] + [cs[i]];
    KeptOne(cs[..i], cs[i], key);
    if Repeats(cs[..i], cs[i], key) {
      RemoveEachAppend(cs, d, cs[i]);
    } else {
      assert d + [] == d;
    }
  }

  /** The same walk over a whole element tree: a class keeps each child
      whose signature no earlier child had, every element's remaining
      children are walked in turn. */
  function TreeKey(t: Tree<WrappedKind>): Option<string> {
    MethodKey(t.data)
  }

  function DedupTree(t: Tree<WrappedKind>): (r: Tree<WrappedKind>)
    decreases t, 1
    ensures r.id == t.id && r.data == t.data
  {
    Node(t.id, t.data, DedupKids(t, |t.children|))
  }

  /** The processed children among the first `n` children of `t`. */
  function DedupKids(t: Tree<WrappedKind>, n: nat): seq<Tree<WrappedKind>>
    requires n <= |t.children|
    decreases t, 0, n
  {
    if n == 0 then []
    else
      var c := t.children[n - 1];
      DedupKids(t, n - 1) +
        (if t.data.ClassKind? && Repeats(t.children[..n - 1], c, TreeKey) then [] else [DedupTree(c)])
  }

  /** Every class in the tree has children with pairwise different
      signatures. */
  predicate Deduped(t: Tree<WrappedKind>)
    decreases t
  {
    (t.data.ClassKind? ==> SignaturesUnique(t.children, TreeKey)) &&
    forall i :: 0 <= i < |t.children| ==> Deduped(t.children[i])
  }

  /** A class's processed children are its kept children, each processed. */
  lemma {:induction false} DedupKidsKept(t: Tree<WrappedKind>, n: nat)
    requires n <= |t.children| && t.data.ClassKind?
    ensures |DedupKids(t, n)| == |Kept(t.children[..n], TreeKey)|
    ensures forall i :: 0 <= i < |DedupKids(t, n)| ==>
      DedupKids(t, n)[i] == DedupTree(Kept(t.children[..n], TreeKey)[i])
  {
    if n > 0 {
      DedupKidsKept(t, n - 1);
      assert t.children[..n] == t.children[..n - 1] + [t.children[n - 1]];
      KeptOne(t.children[..n - 1], t.children[n - 1], TreeKey);
    }
  }

  /** Any other element's processed children are all its children, each
      processed. */
  lemma {:induction false} DedupKidsAll(t: Tree<WrappedKind>, n: nat)
    requires n <= |t.children| && !t.data.ClassKind?
    ensures |DedupKids(t, n)| == n
    ensures forall i :: 0 <= i < n ==> DedupKids(t, n)[i] == DedupTree(t.children[i])
  {
    if n > 0 {
      DedupKidsAll(t, n - 1);
    }
  }

  lemma KeptIn(cs: seq<Tree<WrappedKind>>, i: nat)
    requires i < |Kept(cs, TreeKey)|
    ensures Kept(cs, TreeKey)[i] in cs
  {
  }

  /** After the walk, no class anywhere in the tree holds two methods with
      the same signature. */
  lemma {:induction false} DedupTreeDeduped(t: Tree<WrappedKind>)
    ensures Deduped(DedupTree(t))
    decreases t
  {
    var r := DedupTree(t);
    var n := |t.children|;
    assert t.children[..n] == t.children;
    if t.data.ClassKind? {
      DedupKidsKept(t, n);
      var k := Kept(t.children, TreeKey);
      KeptSignaturesUnique(t.children, TreeKey);
      forall i, j | 0 <= i < j < |r.children| && TreeKey(r.children[i]).Some? && TreeKey(r.children[j]).Some?
        ensures TreeKey(r.children[i]) != TreeKey(r.children[j])
      {
        assert r.children[i].data == k[i].data && r.children[j].data == k[j].data;
      }
      forall i | 0 <= i < |r.children|
        ensures Deduped(r.children[i])
      {
        KeptIn(t.children, i);
        DedupTreeDeduped(k[i]);
      }
    } else {
      DedupKidsAll(t, n);
      forall i | 0 <= i < |r.children|
        ensures Deduped(r.children[i])
      {
        DedupTreeDeduped(t.children[i]);
      }
    }
  }

  // ---------------------------------------------------------------------
  // WrappedElement.defaultFilter

  predicate NoClassAmong(ancestors: seq<WrappedKind>) {
    forall i :: 0 <= i < |ancestors| ==> !ancestors[i].ClassKind?
  }

  /** `defaultFilter` for the last element of `chain` (its ancestors, root
      first, then itself). A class passes unless its type is spelled from
      `std::` or `__`; a static method passes when no class encloses it, the
      root's text (`rootText`, element printing is not modelled) does not
      start with "std", its name does not start with '_' and its direct
      parent is not a namespace whose name starts with '_'. Nothing else
      passes. Reading the class's qualified name as a type can fail. */
  function DefaultFilter(chain: seq<WrappedKind>, rootText: string): (r: Result<bool>)
    requires |chain| > 0
    ensures r.Fail? ==> chain[|chain| - 1].ClassKind?
  {
    var k := chain[|chain| - 1];
    if k.ClassKind? then
      var t := ClassType(k, chain);
      if t.Fail? then Fail(t.error)
      else
        var s := ToString(t.value);
        Ok(!StartsWith(s, "std::") && !StartsWith(s, "__"))
    else if k.MethodKind? && k.decl.methodType == Static then
      var ancestors := chain[..|chain| - 1];
      var parent := if |ancestors| == 0 then None else Some(ancestors[|ancestors| - 1]);
      Ok(NoClassAmong(ancestors) && !StartsWith(rootText, "std")
        && !StartsWith(k.decl.name, "_")
        && !(parent.Some? && parent.value.NamespaceKind? && StartsWith(parent.value.namespace, "_")))
    else Ok(false)
  }

  /** Only classes and static methods can pass. */
  lemma DefaultFilterKinds(chain: seq<WrappedKind>, rootText: string)
    requires |chain| > 0
    requires DefaultFilter(chain, rootText) == Ok(true)
    ensures chain[|chain| - 1].ClassKind? ||
      (chain[|chain| - 1].MethodKind? && chain[|chain| - 1].decl.methodType == Static)
  {
  }

  /** A class whose type is spelled from `std::` or `__` is rejected, and
      one spelled otherwise passes. */
  lemma DefaultFilterClass(chain: seq<WrappedKind>, rootText: string, t: CppType)
    requires |chain| > 0 && chain[|chain| - 1].ClassKind?
    requires ClassType(chain[|chain| - 1], chain) == Ok(t)
    ensures DefaultFilter(chain, rootText) == Ok(true) <==>
      !StartsWith(ToString(t), "std::") && !StartsWith(ToString(t), "__")
  {
  }

  /** A static method declared inside a class, or one whose name starts
      with '_', is rejected. */
  lemma DefaultFilterStaticMethod(chain: seq<WrappedKind>, rootText: string)
    requires |chain| > 0
    requires chain[|chain| - 1].MethodKind? && chain[|chain| - 1].decl.methodType == Static
    requires (exists i :: 0 <= i < |chain| - 1 && chain[i].ClassKind?) || StartsWith(chain[|chain| - 1].decl.name, "_")
    ensures DefaultFilter(chain, rootText) == Ok(false)
  {
  }

  /** A class directly inside a top-level namespace is typed by the two
      names joined with "::". */
  lemma NamespacedClassType(ns: string, name: string)
    requires PlainName(ns + "::" + name)
    ensures ClassType(ClassKind(name, false, None), [NamespaceKind(ns), ClassKind(name, false, None)])
      == Ok(Ref(ns + "::" + name))
  {
    var c := [NamespaceKind(ns), ClassKind(name, false, None)];
    assert c[..1] == [NamespaceKind(ns)] && c[..1][..0] == [];
    assert NamedParts(c) == [ns, name];
    assert Join([ns, name], "::") == ns + "::" + name;
    ParsePlain(Ref(ns + "::" + name));
  }

  /** `std::vector`, a class in namespace `std`, is rejected. */
  lemma DefaultFilterStdExample()
    ensures DefaultFilter([NamespaceKind("std"), ClassKind("vector", false, None)], "") == Ok(false)
  {
    assert PlainName("std" + "::" + "vector");
    NamespacedClassType("std", "vector");
    assert StartsWith("std::vector", "std::");
  }

  /** `TestLib::TestClass` passes. */
  lemma DefaultFilterTestLibExample()
    ensures DefaultFilter([NamespaceKind("TestLib"), ClassKind("TestClass", false, None)], "") == Ok(true)
  {
    assert PlainName("TestLib" + "::" + "TestClass");
    NamespacedClassType("TestLib", "TestClass");
    assert "TestLib::TestClass"[..5][0] != "std::"[0];
    assert "TestLib::TestClass"[..2][0] != "__"[0];
  }
}
