/** The C names of the generated shim functions. One `NameHandler` hands
    out every function name of a run and never the same one twice; each
    class gets a `Namer` that derives the names of its members from the
    class's C name and remembers what it handed out for each member. */
module Naming {
  import opened Wrappers
  import opened Text
  import opened Unique
  import opened CamelCase
  import Operators
  import opened Methods

  /** The identity of a model object (a method, a field, ...) the namers
      remember names for. */
  type ObjectId = nat

  /** `cName`: the class type's spelling turned into a C identifier. */
  function CName(typeString: string): string {
    var s1 := Replace(typeString, "::", "_");
    var s2 := Replace(s1, "<", "_");
    var s3 := Replace(s2, ",", "__");
    var s4 := Replace(s3, ">", "");
    var s5 := Replace(s4, "*", "_P");
    Replace(s5, " ", "_")
  }

  /** Holds none of the characters `cName` rewrites. */
  predicate Plain(s: string) {
    ':' !in s && '<' !in s && ',' !in s && '>' !in s && '*' !in s && ' ' !in s
  }

  lemma {:induction false} ReplaceDrops(s: string, c: char, rep: string)
    requires c !in rep
    ensures c !in Replace(s, [c], rep)
    decreases |s|
  {
    if |s| >= 1 {
      ReplaceDrops(s[1..], c, rep);
    }
  }

  lemma {:induction false} ReplaceKeepsOut(s: string, pat: string, rep: string, c: char)
    requires |pat| > 0 && c !in s && c !in rep
    ensures c !in Replace(s, pat, rep)
    decreases |s|
  {
    if |s| >= |pat| {
      if s[..|pat|] == pat {
        ReplaceKeepsOut(s[|pat|..], pat, rep, c);
      } else {
        ReplaceKeepsOut(s[1..], pat, rep, c);
      }
    }
  }

  /** A C name never holds `<`, `>`, `,`, `*` or a space. */
  lemma CNameIsIdentifier(typeString: string)
    ensures var r := CName(typeString);
      '<' !in r && '>' !in r && ',' !in r && '*' !in r && ' ' !in r
  {
    var s1 := Replace(typeString, "::", "_");
    var s2 := Replace(s1, "<", "_");
    var s3 := Replace(s2, ",", "__");
    var s4 := Replace(s3, ">", "");
    var s5 := Replace(s4, "*", "_P");
    ReplaceDrops(s1, '<', "_");
    ReplaceKeepsOut(s2, ",", "__", '<');
    ReplaceDrops(s2, ',', "__");
    ReplaceKeepsOut(s3, ">", "", '<');
    ReplaceKeepsOut(s3, ">", "", ',');
    ReplaceDrops(s3, '>', "");
    ReplaceKeepsOut(s4, "*", "_P", '<');
    ReplaceKeepsOut(s4, "*", "_P", ',');
    ReplaceKeepsOut(s4, "*", "_P", '>');
    ReplaceDrops(s4, '*', "_P");
    ReplaceKeepsOut(s5, " ", "_", '<');
    ReplaceKeepsOut(s5, " ", "_", ',');
    ReplaceKeepsOut(s5, " ", "_", '>');
    ReplaceKeepsOut(s5, " ", "_", '*');
    ReplaceDrops(s5, ' ', "_");
  }

  /** A name with none of those characters is its own C name. */
  lemma CNameOfPlain(s: string)
    requires Plain(s)
    ensures CName(s) == s
  {
  }

  /** `replace` skips a prefix that cannot start the pattern. */
  lemma {:induction false} ReplaceSkips(a: string, x: string, pat: string, rep: string)
    requires |pat| > 0 && pat[0] !in a
    ensures Replace(a + x, pat, rep) == a + Replace(x, pat, rep)
    decreases |a|
  {
    if |a| > 0 {
      var ax := a + x;
      if |ax| >= |pat| {
        assert ax[0] == a[0] != pat[0];
        assert ax[..|pat|] != pat by {
          assert ax[..|pat|][0] == ax[0];
        }
        assert Replace(ax, pat, rep) == [a[0]] + Replace(ax[1..], pat, rep);
        assert ax[1..] == a[1..] + x;
        ReplaceSkips(a[1..], x, pat, rep);
        assert [a[0]] + (a[1..] + Replace(x, pat, rep)) == a + Replace(x, pat, rep);
      } else {
        assert Replace(ax, pat, rep) == ax;
        assert Replace(x, pat, rep) == x;
      }
    } else {
      assert a + x == x;
    }
  }

  /** `replace` at an occurrence. */
  lemma ReplaceAt(x: string, pat: string, rep: string)
    requires |pat| > 0
    ensures Replace(pat + x, pat, rep) == rep + Replace(x, pat, rep)
  {
    assert (pat + x)[..|pat|] == pat;
    assert (pat + x)[|pat|..] == x;
  }

  /** `replace` over one occurrence with no earlier one. */
  lemma ReplaceAround(a: string, pat: string, rep: string, b: string)
    requires |pat| > 0 && pat[0] !in a
    ensures Replace(a + (pat + b), pat, rep) == a + (rep + Replace(b, pat, rep))
  {
    ReplaceSkips(a, pat + b, pat, rep);
    ReplaceAt(b, pat, rep);
  }

  /** A qualified name's `::` becomes `_`: `TestLib::TestClass` becomes
      `TestLib_TestClass`. */
  lemma CNameQualified(ns: string, name: string)
    requires Plain(ns) && Plain(name)
    ensures CName(ns + ("::" + name)) == ns + ("_" + name)
  {
    ReplaceAround(ns, "::", "_", name);
    assert Replace(name, "::", "_") == name;
  }

  /** The spelling of `ns::name<argNs::arg>`. */
  function TemplateSpelling(ns: string, name: string, argNs: string, arg: string): string {
    ns + ("::" + (name + ("<" + (argNs + ("::" + (arg + ">"))))))
  }

  lemma TemplateColons(ns: string, name: string, argNs: string, arg: string)
    requires Plain(ns) && Plain(name) && Plain(argNs) && Plain(arg)
    ensures Replace(TemplateSpelling(ns, name, argNs, arg), "::", "_")
      == ns + ("_" + (name + ("<" + (argNs + ("_" + (arg + ">"))))))
  {
    var tail := name + ("<" + (argNs + ("::" + (arg + ">"))));
    ReplaceAround(ns, "::", "_", tail);
    TailColons(name, argNs, arg);
  }

  lemma TailColons(name: string, argNs: string, arg: string)
    requires Plain(name) && Plain(argNs) && Plain(arg)
    ensures Replace(name + ("<" + (argNs + ("::" + (arg + ">")))), "::", "_")
      == name + ("<" + (argNs + ("_" + (arg + ">"))))
  {
    var inner := name + ("<" + argNs);
    RegroupLast(name, "<", argNs, "::" + (arg + ">"));
    RegroupLast(name, "<", argNs, "_" + (arg + ">"));
    assert ':' !in inner;
    ReplaceAround(inner, "::", "_", arg + ">");
    NoColonKept(arg + ">");
  }

  lemma NoColonKept(s: string)
    requires ':' !in s
    ensures Replace(s, "::", "_") == s
  {
    forall k | 0 <= k < |s|
      ensures s[k] != "::"[0]
    {
    }
  }

  lemma TemplateAngles(ns: string, name: string, argNs: string, arg: string)
    requires Plain(ns) && Plain(name) && Plain(argNs) && Plain(arg)
    ensures Replace(ns + ("_" + (name + ("<" + (argNs + ("_" + (arg + ">")))))), "<", "_")
      == (ns + ("_" + (name + ("_" + (argNs + ("_" + arg)))))) + ">"
  {
    var head := ns + ("_" + name);
    var rest := argNs + ("_" + (arg + ">"));
    assert ns + ("_" + (name + ("<" + rest))) == head + ("<" + rest) by {
      RegroupLast(ns, "_", name, "<" + rest);
    }
    assert Replace(head + ("<" + rest), "<", "_") == head + ("_" + rest) by {
      assert '<' !in head && '<' !in rest;
      ReplaceAround(head, "<", "_", rest);
    }
    assert head + ("_" + rest) == (ns + ("_" + (name + ("_" + (argNs + ("_" + arg)))))) + ">" by {
      RegroupLast(ns, "_", name, "_" + rest);
      assert "_" + rest == ("_" + (argNs + ("_" + arg))) + ">";
      assert name + ("_" + rest) == (name + ("_" + (argNs + ("_" + arg)))) + ">";
    }
  }

  /** Moving the last piece of a right-nested concatenation out, so that
      `TailColons` and `TemplateAngles` can see the text before a replaced
      separator as one string. */
  lemma RegroupLast(a: string, b: string, c: string, d: string)
    ensures a + (b + (c + d)) == (a + (b + c)) + d
  {
  }

  lemma DropLastAngle(body: string)
    requires '>' !in body
    ensures Replace(body + ">", ">", "") == body
  {
    ReplaceAround(body, ">", "", "");
    assert body + (">" + "") == body + ">";
  }

  /** A template instance of a qualified class over a qualified class:
      `std::vector<std::string>` becomes `std_vector_std_string`. */
  lemma CNameTemplate(ns: string, name: string, argNs: string, arg: string)
    requires Plain(ns) && Plain(name) && Plain(argNs) && Plain(arg)
    ensures CName(TemplateSpelling(ns, name, argNs, arg))
      == ns + ("_" + (name + ("_" + (argNs + ("_" + arg)))))
  {
    TemplateColons(ns, name, argNs, arg);
    TemplateAngles(ns, name, argNs, arg);
    var body := ns + ("_" + (name + ("_" + (argNs + ("_" + arg)))));
    assert Plain(body);
    assert Replace(body + ">", ",", "__") == body + ">";
    DropLastAngle(body);
    assert Replace(body, "*", "_P") == body;
  }

  // ---------------------------------------------------------------------
  // Member names

  /** The name a member asks for before it is made unique. */
  function CandidateName(cName: string, m: MethodDecl): string {
    match m.methodType
    case Constructor => cName + "_new"
    case Destructor => cName + "_dispose"
    case SizeOf => cName + "_size_of"
    case _ =>
      var op := Operators.From(m.name, |m.args|);
      if op.Some? then Operators.Name(cName, op.value)
      else cName + "_" + Replace(Snake(m.name), "=", "_eq")
  }

  /** Constructors, destructors and `sizeof` get fixed suffixes whatever
      their name; an operator gets its operator name. */
  lemma CandidateSuffixes(cName: string, m: MethodDecl)
    ensures m.methodType == Constructor ==> EndsWith(CandidateName(cName, m), "_new")
    ensures m.methodType == Destructor ==> EndsWith(CandidateName(cName, m), "_dispose")
    ensures m.methodType == SizeOf ==> EndsWith(CandidateName(cName, m), "_size_of")
    ensures m.methodType !in {Constructor, Destructor, SizeOf} && Operators.From(m.name, |m.args|).Some? ==>
      CandidateName(cName, m) == Operators.Name(cName, Operators.From(m.name, |m.args|).value)
    ensures StartsWith(CandidateName(cName, m), cName)
  {
    var r := CandidateName(cName, m);
    assert StartsWith(r, cName) by {
      assert r[..|cName|] == cName;
    }
    if m.methodType == Constructor {
      assert r[|r| - 4..] == "_new";
    } else if m.methodType == Destructor {
      assert r[|r| - 8..] == "_dispose";
    } else if m.methodType == SizeOf {
      assert r[|r| - 8..] == "_size_of";
    }
  }

  /** `getPrivateString` becomes `<cName>_get_private_string`. */
  lemma PlainMethodName(cName: string, returnType: CppTypes.CppType)
    ensures CandidateName(cName, MethodDecl("getPrivateString", returnType, Method, []))
      == cName + "_" + ("get" + "_" + "private" + "_" + "string")
  {
    Operators.PlainMethodNoOperator();
    GetPrivateStringSnake();
    var snake := "get" + "_" + "private" + "_" + "string";
    assert '=' !in snake;
  }

  lemma GetPrivateStringSnake()
    ensures Snake("getPrivateString") == "get" + "_" + "private" + "_" + "string"
  {
    GetPrivateStringPieces();
    LowerWord("get", "get");
    LowerWord("Private", "private");
    LowerWord("String", "string");
    var lowered := LowerAll(["get", "Private", "String"]);
    assert lowered == ["get", "private", "string"];
    JoinThree("get", "private", "string", "_");
  }

  lemma JoinThree(a: string, b: string, c: string, sep: string)
    ensures Join([a, b, c], sep) == a + sep + b + sep + c
  {
    assert [a, b, c][1..] == [b, c];
    assert [b, c][1..] == [c];
    assert Join([b, c], sep) == b + sep + c;
  }

  lemma GetPrivateStringPieces()
    ensures Pieces("getPrivateString") == ["get", "Private", "String"]
  {
    var s := "getPrivateString";
    assert !Boundary(s, 1) && !Boundary(s, 2);
    assert Boundary(s, 3);
    assert forall q :: 4 <= q < 10 ==> !Boundary(s, q);
    assert Boundary(s, 10);
    assert forall q :: 11 <= q < |s| ==> !Boundary(s, q);
    SplitTail(s, 10, 11);
    assert SplitFrom(s, 3, 4) == [s[3..10]] + SplitFrom(s, 10, 11) by {
      SplitSkip(s, 3, 4, 10);
    }
    SplitSkip(s, 0, 1, 3);
    assert s[0..3] == "get" && s[3..10] == "Private" && s[10..] == "String";
  }

  /** Positions without a cut are passed over. */
  lemma {:induction false} SplitSkip(s: string, start: nat, p: nat, q: nat)
    requires start < p <= q < |s|
    requires forall k :: p <= k < q ==> !Boundary(s, k)
    requires Boundary(s, q)
    ensures SplitFrom(s, start, p) == [s[start..q]] + SplitFrom(s, q, q + 1)
    decreases q - p
  {
    if p < q {
      SplitSkip(s, start, p + 1, q);
    }
  }

  // ---------------------------------------------------------------------
  // The handler and the namers

  class NameHandler {
    /** Every name handed out so far. */
    var allNames: set<string>
    /** The names handed out, in order. */
    ghost var issued: seq<string>
    /** `namerStorage`: the namer of each class seen. */
    var namers: map<ObjectId, Namer>

    ghost predicate Valid()
      reads this
    {
      && (forall i, j :: 0 <= i < j < |issued| ==> issued[i] != issued[j])
      && (forall x :: x in allNames <==> x in issued)
    }

    constructor ()
      ensures Valid() && allNames == {} && issued == [] && namers == map[]
    {
      allNames := {};
      issued := [];
      namers := map[];
    }

    /** `uniqueNameFor`: `_` is put in front of the name until it is not
        taken; the name is then taken. */
    method UniqueNameFor(name: string) returns (r: string)
      requires Valid()
      modifies this
      ensures Valid()
      ensures r == FreeName(old(allNames), name) && r !in old(allNames)
      ensures allNames == old(allNames) + {r} && issued == old(issued) + [r]
      ensures namers == old(namers)
    {
      var current := name;
      ghost var rest := allNames;
      while current in allNames
        invariant rest <= allNames
        invariant FreeName(rest, current) == FreeName(old(allNames), name)
        invariant forall x :: x in allNames - rest ==> |x| < |current|
        decreases |rest|
      {
        assert current in rest;
        rest := rest - {current};
        current := "_" + current;
      }
      r := current;
      allNames := allNames + {r};
      issued := issued + [r];
    }

    /** `namer()`: the class's namer, made on first use. */
    method NamerFor(cls: ObjectId, typeString: string) returns (n: Namer)
      modifies this
      ensures cls in old(namers) ==> n == old(namers)[cls] && namers == old(namers)
      ensures cls !in old(namers) ==>
        (&& fresh(n) && n.cName == CName(typeString) && n.lookup == map[]
         && namers == old(namers)[cls := n])
      ensures n.handler == this || cls in old(namers)
      ensures allNames == old(allNames) && issued == old(issued)
    {
      if cls in namers {
        n := namers[cls];
      } else {
        n := new Namer(this, typeString);
        namers := namers[cls := n];
      }
    }
  }

  class Namer {
    const handler: NameHandler
    const cName: string
    /** `nameLookup`: the name handed out for each object asked about. */
    var lookup: map<ObjectId, string>

    constructor (handler: NameHandler, typeString: string)
      ensures this.handler == handler && cName == CName(typeString) && lookup == map[]
    {
      this.handler := handler;
      cName := CName(typeString);
      lookup := map[];
    }

    /** `uniqueCName`: the first request for a method makes its candidate
        name unique in the whole handler; later requests repeat it. */
    method UniqueCName(key: ObjectId, m: MethodDecl) returns (r: string)
      requires handler.Valid()
      modifies this, handler
      ensures handler.Valid() && handler.namers == old(handler.namers)
      ensures key in old(lookup) ==>
        r == old(lookup)[key] && lookup == old(lookup)
        && handler.allNames == old(handler.allNames) && handler.issued == old(handler.issued)
      ensures key !in old(lookup) ==>
        r == FreeName(old(handler.allNames), CandidateName(cName, m))
        && lookup == old(lookup)[key := r]
        && handler.allNames == old(handler.allNames) + {r} && handler.issued == old(handler.issued) + [r]
    {
      if key in lookup {
        r := lookup[key];
      } else {
        r := handler.UniqueNameFor(CandidateName(cName, m));
        lookup := lookup[key := r];
      }
    }

    /** `uniqueCGetter`: `<cName>_<field>_get`, remembered for the field but
        not made unique. */
    method UniqueCGetter(field: ObjectId, fieldName: string) returns (r: string)
      modifies this
      ensures field in old(lookup) ==> r == old(lookup)[field] && lookup == old(lookup)
      ensures field !in old(lookup) ==> r == cName + "_" + fieldName + "_get" && lookup == old(lookup)[field := r]
    {
      r := Remember(field, cName + "_" + fieldName + "_get");
    }

    /** `uniqueCSetter`: `<cName>_<field>_set`, remembered for the field's
        setter object. */
    method UniqueCSetter(setter: ObjectId, fieldName: string) returns (r: string)
      modifies this
      ensures setter in old(lookup) ==> r == old(lookup)[setter] && lookup == old(lookup)
      ensures setter !in old(lookup) ==> r == cName + "_" + fieldName + "_set" && lookup == old(lookup)[setter := r]
    {
      r := Remember(setter, cName + "_" + fieldName + "_set");
    }

    /** `uniqify(source, name)` and the `name` memo behind all of these. */
    method Remember(key: ObjectId, name: string) returns (r: string)
      modifies this
      ensures key in old(lookup) ==> r == old(lookup)[key] && lookup == old(lookup)
      ensures key !in old(lookup) ==> r == name && lookup == old(lookup)[key := r]
    {
      if key in lookup {
        r := lookup[key];
      } else {
        r := name;
        lookup := lookup[key := name];
      }
    }
  }

  /** Asking twice for the same method's name gives the same name and
      hands out nothing more. */
  method SameMethodTwice(n: Namer, key: ObjectId, m: MethodDecl) returns (first: string, second: string)
    requires n.handler.Valid()
    modifies n, n.handler
    ensures first == second
    ensures |n.handler.issued| <= |old(n.handler.issued)| + 1
  {
    first := n.UniqueCName(key, m);
    second := n.UniqueCName(key, m);
  }

  /** Four constructors of one class: the first keeps `<cName>_new`, the
      next ones get one more `_` in front each time. */
  method FourConstructors(typeString: string, returnType: CppTypes.CppType) returns (names: seq<string>)
    ensures var c := CName(typeString) + "_new";
      names == [c, "_" + c, "__" + c, "___" + c]
  {
    var handler := new NameHandler();
    var namer := handler.NamerFor(0, typeString);
    var ctor := MethodDecl(typeString, returnType, Constructor, []);
    var c := CName(typeString) + "_new";
    assert CandidateName(namer.cName, ctor) == c;
    FreeNameSequence(c);
    IssuedNameSets(c);
    var a := namer.UniqueCName(1, ctor);
    assert a == c && handler.allNames == {c};
    var b := namer.UniqueCName(2, ctor);
    assert b == "_" + c && handler.allNames == {c, "_" + c};
    var d := namer.UniqueCName(3, ctor);
    assert d == "__" + c && handler.allNames == {c, "_" + c, "__" + c};
    var e := namer.UniqueCName(4, ctor);
    names := [a, b, d, e];
  }

  /** The set of issued names after each of the first three constructors,
      written as the union `UniqueCName` forms and as the set it equals. */
  lemma IssuedNameSets(c: string)
    ensures {} + {c} == {c}
    ensures {c} + {"_" + c} == {c, "_" + c}
    ensures {c, "_" + c} + {"__" + c} == {c, "_" + c, "__" + c}
  {
  }
}
