/** The C++ type model: a type reference by name, a type with a `*`, `&` or
    `[]` modifier, a `const`-prefixed type, a template instantiation and the
    three unresolved leaves (template parameter, typedef, `typename`). */
module CppTypes {
  import opened Wrappers
  import opened Text
  import Decimal

  datatype CppType =
    | Ref(name: string)
    | Modified(base: CppType, modifier: string)
    | Prefixed(base: CppType, prefix: string)
    | Template(base: CppType, args: seq<CppType>)
    | TemplateRef(target: string)
    | Typedef(usr: string)
    | Typename(target: string)

  /** The C++ names treated as native (passed through to C unchanged). */
  const NATIVE: seq<string> := [
    "size_t", "uint16_t", "void", "bool", "char", "signed char", "unsigned char",
    "short", "signed short", "unsigned short", "int", "signed int", "unsigned int",
    "long", "signed long", "unsigned long", "long long", "signed long long",
    "unsigned long long", "float", "double"
  ]
  const STRING: string := "std::string"
  const LONG_DOUBLE_STR: string := "long double"
  const CONST_PREFIX: string := "const "

  const VOID: CppType := Ref("void")
  const LONG_DOUBLE: CppType := Ref(LONG_DOUBLE_STR)
  const UNRESOLVABLE: CppType := Ref("unresolveable")

  /** `pointerTo`: a pointer, always returnable, whose pointee is `t`;
      native exactly when `t` is. */
  function PointerTo(t: CppType): (r: CppType)
    ensures IsPointer(r) && IsReturnable(r) && Pointed(r) == Ok(t)
    ensures IsNative(r) == IsNative(t)
  {
    Modified(t, "*")
  }

  /** `referenceTo`: a reference, always returnable, to `t`; native
      exactly when `t` is. */
  function ReferenceTo(t: CppType): (r: CppType)
    ensures IsReference(r) && IsReturnable(r) && Unreferenced(r) == Ok(t)
    ensures IsNative(r) == IsNative(t)
  {
    Modified(t, "&")
  }

  /** `arrayOf`: an array of `t`, neither a pointer nor a reference;
      native exactly when `t` is. */
  function ArrayOf(t: CppType): (r: CppType)
    ensures IsArray(r) && !IsPointer(r) && !IsReference(r)
    ensures IsNative(r) == IsNative(t)
  {
    Modified(t, "[]")
  }

  // ---------------------------------------------------------------------
  // A type reference by name

  predicate RefIsArray(name: string) { EndsWith(name, "]") }

  predicate RefIsConst(name: string) { StartsWith(name, CONST_PREFIX) }

  /** Drops one leading "const " and trims what is left. */
  function RefUnconst(name: string): (r: string)
    ensures |r| <= |name|
    ensures !RefIsConst(name) ==> r == name
    ensures RefIsConst(name) ==> |r| <= |name| - |CONST_PREFIX|
  {
    if RefIsConst(name) then Trim(name[|CONST_PREFIX|..]) else name
  }

  predicate RefIsString(name: string) { RefUnconst(name) == STRING }

  /** The element type of an array name: the text before the first `[`, trimmed. */
  function RefArrayType(name: string): (r: Result<string>)
    ensures r.Ok? ==> |r.value| < |name|
    ensures r.Ok? <==> RefIsArray(name) && '[' in name
    ensures r.Fail? ==> r == Fail(IllegalArgument)
    ensures r.Ok? ==> exists k :: 0 <= k < |name| && name[k] == '[' && '[' !in name[..k] && r.value == Trim(name[..k])
  {
    if !RefIsArray(name) then Fail(IllegalArgument)
    else
      var open := IndexOf(name, '[', 0);
      if open < 0 then Fail(IllegalArgument)
      else
        assert '[' !in name[..open] by {
          forall k | 0 <= k < open ensures name[..open][k] != '[' { }
        }
        Ok(Trim(name[..open]))
  }

  /** The declared size of an array name; -1 when the brackets are empty
      (or missing, which the `isArray` requirement already rules out for `]`). */
  function RefArraySize(name: string): (r: Result<int>)
    ensures !RefIsArray(name) ==> r == Fail(IllegalArgument)
    ensures RefIsArray(name) && '[' !in name ==> r == Ok(-1)
    ensures r.Fail? ==> r.error == IllegalArgument || r.error == IndexOutOfBounds || r.error == NumberFormat
  {
    if !RefIsArray(name) then Fail(IllegalArgument)
    else
      var open := IndexOf(name, '[', 0);
      var close := IndexOf(name, ']', 0);
      if open < 0 || close < 0 then Ok(-1)
      else if open + 1 == close then Ok(-1)
      else if open + 1 > close then Fail(IndexOutOfBounds)
      else Decimal.ToInt(name[open + 1..close])
  }

  /** `isNative` on a name: a native name or string, possibly const, or an
      array of one. */
  predicate RefIsNative(name: string)
    decreases |name|
  {
    RefUnconst(name) in NATIVE
    || RefIsString(name)
    || (RefIsArray(name) && RefArrayType(name).Ok? && RefIsNative(RefArrayType(name).value))
  }

  predicate RefIsReturnable(name: string) {
    name in NATIVE || RefIsString(name) || name == LONG_DOUBLE_STR
  }

  /** `cType` on a name: a string becomes `const char*`, a native name is
      kept, `long double` becomes `double`, anything else is an error. */
  function RefCType(name: string): (r: Result<CppType>)
    ensures r.Ok? <==> RefIsString(name) || RefIsNative(name) || name == LONG_DOUBLE_STR
    ensures r.Fail? ==> r == Fail(IllegalState)
    ensures RefIsString(name) ==> r == Ok(Ref("const char*"))
    ensures !RefIsString(name) && RefIsNative(name) ==> r == Ok(Ref(name))
  {
    if RefIsString(name) then Ok(Ref("const char*"))
    else if RefIsNative(name) then Ok(Ref(name))
    else if name == LONG_DOUBLE_STR then Ok(Ref("double"))
    else Fail(IllegalState)
  }

  /** A size that every step from a type to a component type shrinks. */
  function Weight(t: CppType): nat {
    match t
    case Ref(n) => 1 + |n|
    case Modified(b, _) => 1 + Weight(b)
    case Prefixed(b, _) => 2 + Weight(b)
    case Template(b, args) => 1 + Weight(b) + WeightSum(args)
    case _ => 1
  }

  function WeightSum(ts: seq<CppType>): nat {
    if |ts| == 0 then 0 else Weight(ts[0]) + WeightSum(ts[1..])
  }

  // ---------------------------------------------------------------------
  // Queries on every kind of type

  /** Passed through to C unchanged; template instantiations and the
      unresolved leaves never are. */
  predicate IsNative(t: CppType)
    ensures IsNative(t) ==> t.Ref? || t.Modified? || t.Prefixed?
  {
    match t
    case Ref(n) => RefIsNative(n)
    case Modified(b, _) => IsNative(b)
    case Prefixed(b, _) => IsNative(b)
    case _ => false
  }

  /** A `std::string`, possibly const or under modifiers; every string type
      is native. */
  predicate IsString(t: CppType)
    ensures IsString(t) ==> IsNative(t)
  {
    match t
    case Ref(n) => RefIsString(n)
    case Modified(b, _) => IsString(b)
    case Prefixed(b, _) => IsString(b)
    case _ => false
  }

  /** A type a C function can return directly; templates and the
      unresolved leaves never are. */
  predicate IsReturnable(t: CppType)
    ensures IsReturnable(t) ==> t.Ref? || t.Modified? || t.Prefixed?
  {
    match t
    case Ref(n) => RefIsReturnable(n)
    case Modified(b, m) => m == "*" || m == "&" || IsReturnable(b)
    case Prefixed(b, _) => IsReturnable(b)
    case _ => false
  }

  predicate IsVoid(t: CppType) {
    t.Ref? && t.name == "void"
  }

  /** A pointer, possibly under prefixes: never a reference or an array. */
  predicate IsPointer(t: CppType)
    ensures IsPointer(t) ==> !IsReference(t) && !IsArray(t)
  {
    match t
    case Modified(_, m) => m == "*"
    case Prefixed(b, _) => IsPointer(b)
    case _ => false
  }

  predicate IsArray(t: CppType) {
    match t
    case Ref(n) => RefIsArray(n)
    case Modified(_, m) => m == "[]"
    case Prefixed(b, _) => IsArray(b)
    case _ => false
  }

  /** A reference, possibly under prefixes: never an array, and always
      returnable. */
  predicate IsReference(t: CppType)
    ensures IsReference(t) ==> !IsArray(t) && IsReturnable(t)
  {
    match t
    case Modified(_, m) => m == "&"
    case Prefixed(b, _) => IsReference(b)
    case _ => false
  }

  /** A const prefix anywhere above the name, or a name spelled with
      "const "; the unresolved leaves and templates never are. */
  predicate IsConst(t: CppType)
    ensures IsConst(t) ==> t.Ref? || t.Modified? || t.Prefixed?
  {
    match t
    case Ref(n) => RefIsConst(n)
    case Modified(b, _) => IsConst(b)
    case Prefixed(b, p) => p == "const" || IsConst(b)
    case _ => false
  }

  /** `const(t)`: adds a const prefix unless the type is already const. */
  function Const(t: CppType): (r: CppType)
    ensures IsConst(r)
    ensures IsConst(t) ==> r == t
    ensures !IsConst(t) ==> r.Prefixed? && r.base == t
  {
    if IsConst(t) then t else Prefixed(t, "const")
  }

  /** The type a pointer points at; a const prefix stays on the pointee. */
  function Pointed(t: CppType): (r: Result<CppType>)
    ensures r.Ok? <==> IsPointer(t)
    ensures r.Ok? ==> Weight(r.value) < Weight(t)
  {
    match t
    case Modified(b, m) => if m == "*" then Ok(b) else Fail(IllegalState)
    case Prefixed(b, p) =>
      if IsPointer(b) then
        var inner := Pointed(b);
        Ok(Prefixed(inner.value, p))
      else Fail(IllegalState)
    case _ => Fail(IllegalState)
  }

  /** The type a reference refers to; a prefixed reference yields a const referent. */
  function Unreferenced(t: CppType): (r: Result<CppType>)
    ensures r.Ok? <==> IsReference(t)
    ensures r.Ok? ==> Weight(r.value) < Weight(t)
  {
    match t
    case Modified(b, m) => if m == "&" then Ok(b) else Fail(IllegalState)
    case Prefixed(b, _) =>
      var inner := Unreferenced(b);
      if inner.Ok? then Ok(Const(inner.value)) else Fail(inner.error)
    case _ => Fail(IllegalState)
  }

  /** Removes the outermost const (for a prefixed type) or the const inside
      the base (for a modified type). */
  function Unconst(t: CppType): (r: Result<CppType>)
    ensures r.Ok? ==> Weight(r.value) <= Weight(t)
    ensures r.Ok? && IsConst(t) ==> Weight(r.value) < Weight(t)
    ensures IsConst(t) ==> r.Ok?
  {
    match t
    case Ref(n) => Ok(Ref(RefUnconst(n)))
    case Modified(b, m) =>
      var inner := Unconst(b);
      if inner.Ok? then Ok(Modified(inner.value, m)) else Fail(inner.error)
    case Prefixed(b, p) =>
      if p == "const" then Ok(b)
      else
        var inner := Unconst(b);
        if inner.Ok? then Ok(Prefixed(inner.value, p)) else Fail(inner.error)
    case _ => Fail(IllegalState)
  }

  /** Every argument's C type, in order, or the first failure. */
  function ArgsCType(args: seq<CppType>): Result<seq<CppType>>
    decreases args
  {
    if |args| == 0 then Ok([])
    else
      var head := CType(args[0]);
      if head.Fail? then Fail(head.error)
      else
        var tail := ArgsCType(args[1..]);
        if tail.Fail? then Fail(tail.error) else Ok([head.value] + tail.value)
  }

  /** The C type used for this C++ type in the generated shim: a string
      crosses as `const char*`, and no C type contains a reference. */
  function CType(t: CppType): (r: Result<CppType>)
    decreases t
    ensures IsString(t) ==> r == Ok(Ref("const char*"))
    ensures r.Ok? ==> ReferenceFree(r.value)
  {
    match t
    case Ref(n) => RefCType(n)
    case Modified(b, m) =>
      if IsString(b) then CType(b)
      else if m == "*" || m == "&" then
        if IsNative(b) || b == LONG_DOUBLE then
          var inner := CType(b);
          if inner.Ok? then Ok(PointerTo(inner.value)) else Fail(inner.error)
        else Ok(PointerTo(VOID))
      else if m == "[]" then
        var inner := CType(b);
        if inner.Ok? then Ok(ArrayOf(inner.value)) else Fail(inner.error)
      else Fail(IllegalState)
    case Prefixed(b, p) =>
      if IsString(b) then CType(b)
      else if p == "const" then
        var inner := CType(b);
        if inner.Ok? then Ok(Const(inner.value)) else Fail(inner.error)
      else Fail(IllegalState)
    case Template(b, args) =>
      var base := CType(b);
      if base.Fail? then Fail(base.error)
      else
        var converted := ArgsCType(args);
        if converted.Fail? then Fail(converted.error) else Ok(PointerTo(VOID))
    case _ => Fail(IllegalState)
  }

  function JoinTypes(args: seq<CppType>): string
    decreases args
  {
    if |args| == 0 then ""
    else if |args| == 1 then ToString(args[0])
    else ToString(args[0]) + ", " + JoinTypes(args[1..])
  }

  /** The C++ spelling of a type. */
  function ToString(t: CppType): string
    decreases t
  {
    match t
    case Ref(n) => n
    case Modified(b, m) => ToString(b) + m
    case Prefixed(b, p) => p + " " + ToString(b)
    case Template(b, args) => ToString(b) + "<" + JoinTypes(args) + ">"
    case TemplateRef(target) => "template<" + target + ">"
    case Typedef(usr) => "unresolved_typedef(" + usr + ")"
    case Typename(target) => "typename!<" + target + ">"
  }

  // ---------------------------------------------------------------------
  // Properties

  /** No `&` modifier anywhere inside a type. */
  predicate ReferenceFree(t: CppType) {
    match t
    case Modified(b, m) => m != "&" && ReferenceFree(b)
    case Prefixed(b, _) => ReferenceFree(b)
    case Template(b, args) => ReferenceFree(b) && forall a | a in args :: ReferenceFree(a)
    case _ => true
  }

  /** A pointer or reference to a class (non-native, non-string) type is an
      opaque `void*` in C; to a native type it keeps the native pointee. */
  lemma PointerCType(b: CppType, m: string)
    requires m == "*" || m == "&"
    requires !IsString(b)
    ensures !IsNative(b) && b != LONG_DOUBLE ==> CType(Modified(b, m)) == Ok(PointerTo(VOID))
    ensures IsNative(b) && CType(b).Ok? ==> CType(Modified(b, m)) == Ok(PointerTo(CType(b).value))
  {
  }

  lemma NativePointerExample()
    ensures CType(PointerTo(Ref("int"))) == Ok(PointerTo(Ref("int")))
    ensures ToString(PointerTo(Ref("int"))) == "int*"
  {
    assert RefIsNative("int") by { assert NATIVE[10] == "int"; }
  }

  /** `*` and `&` types are always returnable; a const prefix changes nothing. */
  lemma ReturnableModifiers(b: CppType)
    ensures IsReturnable(PointerTo(b)) && IsReturnable(ReferenceTo(b))
    ensures IsReturnable(Prefixed(b, "const")) == IsReturnable(b)
  {
  }

  /** A const-prefixed type is const, and unconst removes exactly that layer. */
  lemma ConstRoundTrip(t: CppType)
    ensures IsConst(Const(t))
    ensures Const(Const(t)) == Const(t)
    ensures !IsConst(t) ==> Unconst(Const(t)) == Ok(t)
  {
  }

  /** `pointed` and `unreferenced` fail exactly off pointers and references. */
  lemma PointedUnreferencedDomain(b: CppType, m: string)
    ensures Pointed(Modified(b, m)).Ok? <==> m == "*"
    ensures Unreferenced(Modified(b, m)).Ok? <==> m == "&"
  {
  }

  /** Array names: "int [5]" has size 5 and element type "int"; "int []"
      has size -1; a non-array name fails the requirement. */
  lemma ArrayNameExamples()
    ensures RefArraySize("int [5]") == Ok(5)
  {
    assert IndexOf("int [5]", '[', 0) == 4;
    assert IndexOf("int [5]", ']', 0) == 6;
    assert "int [5]"[5..6] == "5";
  }

  lemma ArrayTypeExample()
    ensures RefArrayType("int [5]") == Ok("int")
  {
    assert IndexOf("int [5]", '[', 0) == 4;
    assert RefIsArray("int [5]");
    assert "int [5]"[..4] == "int ";
    assert RefArrayType("int [5]") == Ok(Trim("int "));
    assert TrimStart("int ") == "int ";
    assert TrimEnd("int ") == "int" by { assert "int "[..3] == "int"; }
  }

  lemma UnsizedArrayExamples()
    ensures RefArraySize("int []") == Ok(-1)
    ensures RefArraySize("int") == Fail(IllegalArgument)
  {
    assert IndexOf("int []", '[', 0) == 4;
    assert IndexOf("int []", ']', 0) == 5;
  }

  /** Rendering a size into brackets and reading it back gives the size. */
  lemma {:induction false} ArraySizeRoundTrip(element: string, n: nat)
    requires '[' !in element && ']' !in element
    requires n <= Decimal.INT_MAX
    ensures RefArraySize(element + "[" + Decimal.Render(n) + "]") == Ok(n)
  {
    var digits := Decimal.Render(n);
    var name := element + "[" + digits + "]";
    assert EndsWith(name, "]");
    assert name[|element|] == '[';
    assert forall k :: 0 <= k < |element| ==> name[k] == element[k];
    assert IndexOf(name, '[', 0) == |element|;
    assert forall k :: 0 <= k < |digits| ==> name[|element| + 1 + k] == digits[k];
    assert forall k :: 0 <= k < |digits| ==> digits[k] != ']';
    assert forall k :: 0 <= k < |element| + 1 + |digits| ==> name[k] != ']' by {
      forall k | 0 <= k < |element| + 1 + |digits| ensures name[k] != ']' {
        if k < |element| {
          assert name[k] == element[k];
        } else if k > |element| {
          assert name[k] == digits[k - |element| - 1];
        }
      }
    }
    assert name[|element| + 1 + |digits|] == ']';
    assert IndexOf(name, ']', 0) == |element| + 1 + |digits|;
    assert name[|element| + 1..|element| + 1 + |digits|] == digits;
    Decimal.ToIntRender(n);
  }

  /** std::string, with or without const, is both a string and native. */
  lemma StringIsNative()
    ensures RefIsString(STRING) && RefIsNative(STRING)
    ensures RefIsString("const std::string") && RefIsNative("const std::string")
  {
    assert !RefIsConst(STRING) by { assert STRING[0] != 'c'; }
    assert RefIsString(STRING);
    var cs := "const std::string";
    assert RefIsConst(cs) by { assert cs[..6] == CONST_PREFIX; }
    assert cs[|CONST_PREFIX|..] == STRING;
    assert TrimStart(STRING) == STRING by { assert !IsWhitespace(STRING[0]); }
    assert TrimEnd(STRING) == STRING by { assert !IsWhitespace(STRING[|STRING| - 1]); }
    assert RefIsString(cs);
  }

  /** No native name starts with "const ", so unconst leaves it alone. */
  lemma NativeNotConst(name: string)
    requires name in NATIVE
    ensures !RefIsConst(name) && RefUnconst(name) == name
  {
    assert forall i :: 0 <= i < |NATIVE| ==> NATIVE[i][0] != 'c' || |NATIVE[i]| < 6;
  }

  /** One leading `const ` goes and the rest is trimmed: a trimmed name
      behind the prefix comes back exactly, even when it is const itself. */
  lemma UnconstPrefix(n: string)
    requires |n| > 0 && !IsWhitespace(n[0]) && !IsWhitespace(n[|n| - 1])
    ensures RefIsConst(CONST_PREFIX + n)
    ensures RefUnconst(CONST_PREFIX + n) == n
  {
    assert (CONST_PREFIX + n)[..|CONST_PREFIX|] == CONST_PREFIX;
    assert (CONST_PREFIX + n)[|CONST_PREFIX|..] == n;
    assert TrimStart(n) == n;
    assert TrimEnd(n) == n;
  }

  /** Blanks around the name behind the prefix go as well. */
  lemma UnconstPadded(n: string)
    requires |n| > 0 && !IsWhitespace(n[0]) && !IsWhitespace(n[|n| - 1])
    ensures RefUnconst(CONST_PREFIX + " " + n + " ") == n
  {
    var rest := n + " ";
    var body := " " + rest;
    var name := CONST_PREFIX + body;
    assert CONST_PREFIX + " " + n + " " == name;
    assert name[..|CONST_PREFIX|] == CONST_PREFIX;
    assert name[|CONST_PREFIX|..] == body;
    assert body[1..] == rest;
    assert rest[0] == n[0];
    assert TrimStart(rest) == rest;
    assert TrimStart(body) == rest;
    assert rest[..|n|] == n;
    assert TrimEnd(n) == n;
    assert TrimEnd(rest) == n;
  }

  /** Only one `const ` is removed. */
  lemma UnconstOnce()
    ensures RefUnconst("const const int") == "const int"
  {
    UnconstPrefix("const int");
    assert CONST_PREFIX + "const int" == "const const int";
  }

  /** A name that ends in `]` but holds no `[`: `arrayType` fails its
      requirement there, so `isNative` throws in the source, while the
      model answers false. */
  lemma MalformedArrayNotNative()
    ensures RefIsArray("int]") && RefArrayType("int]") == Fail(IllegalArgument)
    ensures !RefIsNative("int]")
  {
    assert !RefIsConst("int]");
    assert "int]" !in NATIVE;
    assert !RefIsString("int]");
    assert '[' !in "int]";
  }

  /** Every returnable name (native, string or long double) has a C type. */
  lemma ReturnableNames(name: string)
    ensures RefIsReturnable(name) ==> RefCType(name).Ok?
  {
    if name in NATIVE {
      NativeNotConst(name);
    }
  }
}
