/** Kotlin-side type descriptions: how a C++ type or a C++ name is presented
    in the generated Kotlin wrappers (the name written, its package, the
    fully-qualified names to import, and whether it is a generated wrapper). */
module KotlinTypes {
  import opened Wrappers
  import opened Text
  import opened CppTypes
  import TemplateScan

  const C_OPAQUE_POINTER: string := "kotlinx.cinterop.COpaquePointer"
  const C_VALUES_REF: string := "kotlinx.cinterop.CValuesRef"

  /** A Kotlin type: wrapper flag, names to import, simple name, package and
      its `toString()` text. */
  datatype KType = KType(isWrapper: bool, fullyQualified: seq<string>, name: string, pkg: string, text: string)

  /** Kotlin types for native C++ names. */
  const TYPE_MAP: map<string, string> := map[
    "size_t" := "platform.posix.size_t", "uint16_t" := "UShort", "void" := "Unit",
    "bool" := "Boolean", "char" := "Byte", "signed char" := "Byte", "unsigned char" := "UByte",
    "short" := "Short", "signed short" := "Short", "unsigned short" := "UShort",
    "int" := "Int", "signed int" := "Int", "unsigned int" := "UInt",
    "long" := "Long", "signed long" := "Long", "unsigned long" := "ULong",
    "long long" := "Long", "signed long long" := "Long", "unsigned long long" := "ULong",
    "float" := "Float", "double" := "Double", "long double" := "Double"
  ]

  /** cinterop variable types for pointers to native C++ names. */
  const POINTER_TYPE_MAP: map<string, string> := map[
    "bool" := "kotlinx.cinterop.BooleanVar", "char" := "kotlinx.cinterop.ByteVar",
    "signed char" := "kotlinx.cinterop.ByteVar", "unsigned char" := "kotlinx.cinterop.UByteVar",
    "short" := "kotlinx.cinterop.ShortVar", "signed short" := "kotlinx.cinterop.ShortVar",
    "unsigned short" := "kotlinx.cinterop.UShortVar", "int" := "kotlinx.cinterop.IntVar",
    "signed int" := "kotlinx.cinterop.IntVar", "unsigned int" := "kotlinx.cinterop.UIntVar",
    "long" := "kotlinx.cinterop.LongVar", "signed long" := "kotlinx.cinterop.LongVar",
    "unsigned long" := "kotlinx.cinterop.ULongVar", "long long" := "kotlinx.cinterop.LongVar",
    "signed long long" := "kotlinx.cinterop.LongVar", "unsigned long long" := "kotlinx.cinterop.ULongVar",
    "float" := "kotlinx.cinterop.FloatVar", "double" := "kotlinx.cinterop.DoubleVar"
  ]

  /** `fullyQualifiedType(name, isWrapper)`: the simple name is the text after
      the last `.`, the package the text before it. */
  function FullyQualifiedType(full: string, isWrapper: bool): KType {
    var parts := Split(full, '.');
    KType(isWrapper, [full], parts[|parts| - 1], Join(parts[..|parts| - 1], "."), full)
  }

  lemma {:induction false} JoinSnoc(parts: seq<string>, sep: string)
    requires |parts| >= 2
    ensures Join(parts[..|parts| - 1], sep) + sep + parts[|parts| - 1] == Join(parts, sep)
    decreases |parts|
  {
    if |parts| > 2 {
      JoinSnoc(parts[1..], sep);
      assert parts[1..][..|parts[1..]| - 1] == parts[..|parts| - 1][1..];
    } else {
      assert parts[..1] == [parts[0]];
    }
  }

  /** The simple name has no `.`; joined back to a non-empty package with a
      `.` it gives the full name, and a name without `.` has no package. */
  lemma FullyQualifiedSplit(full: string, isWrapper: bool)
    ensures var k := FullyQualifiedType(full, isWrapper);
      '.' !in k.name && k.fullyQualified == [full] && k.isWrapper == isWrapper
      && ('.' in full ==> k.pkg + "." + k.name == full)
      && ('.' !in full ==> k.pkg == "" && k.name == full)
  {
    var parts := Split(full, '.');
    if |parts| >= 2 {
      JoinSnoc(parts, ".");
      var pkg := Join(parts[..|parts| - 1], ".");
      assert full[|pkg|] == '.';
    } else {
      assert parts == [parts[0]];
    }
  }

  /** `nullable(base)`: the same type with `?` after its name. */
  function Nullable(base: KType): (r: KType)
    ensures r.name == base.name + "?" && r.text == base.text + "?"
    ensures r.isWrapper == base.isWrapper && r.pkg == base.pkg && r.fullyQualified == base.fullyQualified
  {
    base.(name := base.name + "?", text := base.text + "?")
  }

  function Names(ts: seq<KType>): seq<string> {
    if |ts| == 0 then [] else [ts[0].name] + Names(ts[1..])
  }

  function Texts(ts: seq<KType>): seq<string> {
    if |ts| == 0 then [] else [ts[0].text] + Texts(ts[1..])
  }

  function AllQualified(ts: seq<KType>): seq<string> {
    if |ts| == 0 then [] else ts[0].fullyQualified + AllQualified(ts[1..])
  }

  /** `base.typedWith(args)`: `Base<A, B>`, importing the arguments' names
      before the base's. */
  function TypedWith(base: KType, args: seq<KType>): (r: KType)
    ensures r.isWrapper == base.isWrapper && r.pkg == base.pkg
    ensures r.name == base.name + "<" + Join(Names(args), ", ") + ">"
    ensures r.fullyQualified == AllQualified(args) + base.fullyQualified
  {
    KType(base.isWrapper, AllQualified(args) + base.fullyQualified,
      base.name + "<" + Join(Names(args), ", ") + ">", base.pkg,
      base.text + "<" + Join(Texts(args), ", ") + ">")
  }

  /** `substring(range)` on an inclusive range, failing outside the string. */
  function Substring(s: string, r: TemplateScan.Range): Result<string> {
    if 0 <= r.first <= r.last + 1 <= |s| then Ok(s[r.first..r.last + 1]) else Fail(IndexOutOfBounds)
  }

  /** `WrappedKotlinType(name)`: a name with a template argument list becomes
      its base typed with the parsed arguments; any other name becomes a
      wrapper type with `::` turned into `.`. */
  function FromName(nameIn: string): (r: Result<KType>)
    decreases |nameIn|, 0
    ensures r.Ok? ==> r.value.isWrapper
  {
    var name := Trim(nameIn);
    if Contains(name, "<") then
      var start := IndexOf(name, '<', 0);
      if start < 0 || start + 1 > |name| - 1 then Fail(IndexOutOfBounds)
      else
        var base := FromName(name[..start]);
        if base.Fail? then base
        else
          var args := ParseTypes(name[start + 1..|name| - 1]);
          if args.Fail? then Fail(args.error) else Ok(TypedWith(base.value, args.value))
    else Ok(FullyQualifiedType(Replace(name, "::", "."), true))
  }

  /** `parseTypes(argList)`: every top-level comma-separated argument, with
      its leading comma dropped, read as a name. */
  function ParseTypes(argList: string): (r: Result<seq<KType>>)
    decreases |argList|, 2
    ensures r.Ok? ==> TemplateScan.Templates(argList).Ok? && |r.value| == |TemplateScan.Templates(argList).value|
    ensures r.Ok? ==> forall i :: 0 <= i < |r.value| ==> r.value[i].isWrapper
  {
    var ranges := TemplateScan.Templates(argList);
    if ranges.Fail? then Fail(ranges.error) else ParsePieces(argList, ranges.value)
  }

  function ParsePieces(argList: string, ranges: seq<TemplateScan.Range>): (r: Result<seq<KType>>)
    decreases |argList|, 1, |ranges|
    ensures r.Ok? ==> |r.value| == |ranges|
    ensures r.Ok? ==> forall i :: 0 <= i < |r.value| ==> r.value[i].isWrapper
  {
    if |ranges| == 0 then Ok([])
    else
      var piece := Substring(argList, ranges[0]);
      if piece.Fail? then Fail(piece.error)
      else
        var head := FromName(TrimStartChar(piece.value, ','));
        if head.Fail? then Fail(head.error)
        else
          var tail := ParsePieces(argList, ranges[1..]);
          if tail.Fail? then tail
          else
            var all := [head.value] + tail.value;
            assert forall i :: 0 < i < |all| ==> all[i] == tail.value[i - 1];
            Ok(all)
  }

  /** A name with no `.` is not split. */
  lemma {:induction false} SplitWithoutSeparator(s: string, c: char)
    requires c !in s
    ensures Split(s, c) == [s]
    decreases |s|
  {
    if |s| > 0 {
      SplitWithoutSeparator(s[1..], c);
      assert [s[0]] + s[1..] == s;
    }
  }

  lemma {:induction false} NoCharNoContains(s: string, c: char)
    requires c !in s
    ensures !Contains(s, [c])
    decreases |s|
  {
    if |s| > 0 {
      assert s[..1] == [s[0]];
      NoCharNoContains(s[1..], c);
    }
  }

  lemma ReplaceSeparatorExample()
    ensures Replace("ns::Obj", "::", ".") == "ns.Obj"
  {
    var n := "ns::Obj";
    assert Replace(n[4..], "::", ".") == "Obj" by {
      assert forall k :: 0 <= k < |n[4..]| ==> n[4..][k] != ':';
    }
    assert n[2..][..2] == "::";
    assert n[1..][..2] != "::";
    assert n[..2] != "::";
  }

  lemma SplitExample()
    ensures Split("ns.Obj", '.') == ["ns", "Obj"]
  {
    var full := "ns.Obj";
    SplitWithoutSeparator(full[3..], '.');
    var r2 := Split(full[2..], '.');
    assert full[2..][1..] == full[3..];
    assert r2 == ["", "Obj"];
    var r1 := Split(full[1..], '.');
    assert full[1..][1..] == full[2..];
    assert r1 == [[full[1]] + r2[0]] + r2[1..];
    assert [full[1]] + r2[0] == "s";
    assert r2[1..] == ["Obj"];
    assert r1 == ["s", "Obj"];
    assert full[0] == 'n';
    assert [full[0]] + r1[0] == "ns";
    assert r1[1..] == ["Obj"];
    assert Split(full, '.') == [[full[0]] + r1[0]] + r1[1..];
  }

  /** A C++ qualified class name becomes a wrapper in the matching Kotlin package. */
  lemma FromNameExample()
    ensures FromName("ns::Obj") == Ok(KType(true, ["ns.Obj"], "Obj", "ns", "ns.Obj"))
  {
    var n := "ns::Obj";
    assert TrimStart(n) == n && TrimEnd(n) == n;
    NoCharNoContains(n, '<');
    ReplaceSeparatorExample();
    SplitExample();
    var parts := ["ns", "Obj"];
    assert parts[..1] == ["ns"];
  }

  // -----------------------------------------------------------------------
  // From a C++ type

  /** The sections of a template-qualified name, each without leading colons
      and without its template arguments, and the parsed arguments of all of
      them in order. */
  function QualifierSections(name: string, ranges: seq<TemplateScan.Range>): Result<(seq<string>, seq<KType>)>
    decreases |ranges|
  {
    if |ranges| == 0 then Ok(([], []))
    else
      var sub := Substring(name, ranges[0]);
      if sub.Fail? then Fail(sub.error)
      else
        var section := TrimStartChar(sub.value, ':');
        var start := IndexOf(section, '<', 0);
        var rest := QualifierSections(name, ranges[1..]);
        if start < 0 then
          if rest.Fail? then rest else Ok(([section] + rest.value.0, rest.value.1))
        else if start + 1 > |section| - 1 then Fail(IndexOutOfBounds)
        else
          var args := ParseTypes(section[start + 1..|section| - 1]);
          if args.Fail? then Fail(args.error)
          else if rest.Fail? then rest
          else Ok(([section[..start]] + rest.value.0, args.value + rest.value.1))
  }

  /** `WrappedKotlinType(type)`: the Kotlin type presented for a C++ type. */
  function FromType(t: CppType): Result<KType>
    decreases Weight(t), 1
  {
    if t.Template? then
      var base := FromType(t.base);
      if base.Fail? then base
      else
        var names := TemplateNames([t.base] + t.args);
        if names.Fail? then Fail(names.error)
        else FromName(base.value.pkg + "." + Join(names.value, "__"))
    else if t.TemplateRef? then Fail(IllegalArgument)
    else if IsString(t) then Ok(FullyQualifiedType("String?", false))
    else if ToString(t) == "const char*" then Ok(FullyQualifiedType("String?", false))
    else if IsPointer(t) then
      var pointed := Pointed(t).value;
      if IsNative(pointed) then
        if ToString(pointed) in POINTER_TYPE_MAP then
          Ok(Nullable(TypedWith(FullyQualifiedType(C_VALUES_REF, false),
            [FullyQualifiedType(POINTER_TYPE_MAP[ToString(pointed)], false)])))
        else FromType(pointed)
      else
        var inner := FromType(pointed);
        if inner.Fail? then inner else Ok(Nullable(inner.value))
    else if IsReference(t) then FromType(Unreferenced(t).value)
    else if IsConst(t) then FromType(Unconst(t).value)
    else if IsNative(t) || t == LONG_DOUBLE then
      var s := ToString(t);
      Ok(FullyQualifiedType(if s in TYPE_MAP then TYPE_MAP[s] else s, false))
    else
      var name := ToString(t);
      if Contains(name, "<") then
        var ranges := TemplateScan.Qualifiers(name);
        if ranges.Fail? then Fail(ranges.error)
        else
          var sections := QualifierSections(name, ranges.value);
          if sections.Fail? then Fail(sections.error)
          else FromName(Join(sections.value.0, "::") + "__" + Join(Names(sections.value.1), "__"))
      else FromName(name)
  }

  /** The simple names, without a trailing `?`, of a template's base and arguments. */
  function TemplateNames(ts: seq<CppType>): Result<seq<string>>
    decreases WeightSum(ts), 2
  {
    if |ts| == 0 then Ok([])
    else
      var head := FromType(ts[0]);
      if head.Fail? then Fail(head.error)
      else
        var tail := TemplateNames(ts[1..]);
        if tail.Fail? then tail else Ok([TrimEndChar(head.value.name, '?')] + tail.value)
  }

  /** A reference is presented exactly as the type it refers to. */
  lemma ReferenceLikeReferent(t: CppType)
    ensures FromType(ReferenceTo(t)) == FromType(t)
  {
    var r := ReferenceTo(t);
    if !IsString(t) {
      assert ToString(r)[|ToString(r)| - 1] == '&';
      assert ToString(r) != "const char*";
      assert Unreferenced(r) == Ok(t);
    }
  }

  /** A pointer to a class type is the nullable form of the class's type. */
  lemma PointerToClassIsNullable(t: CppType)
    requires !IsString(t) && !IsNative(t) && ToString(t) != "const char"
    ensures FromType(PointerTo(t)).Ok? <==> FromType(t).Ok?
    ensures FromType(PointerTo(t)).Ok? ==> FromType(PointerTo(t)).value == Nullable(FromType(t).value)
  {
    var p := PointerTo(t);
    assert ToString(p) == ToString(t) + "*";
    assert ToString(p)[..|ToString(p)| - 1] == ToString(t);
    assert "const char*"[..10] == "const char";
    assert Pointed(p) == Ok(t);
  }

  /** A pointer to a native type with a cinterop variable type becomes a
      nullable `CValuesRef` of that variable type. */
  lemma PointerToNative(t: CppType)
    requires IsNative(t) && !IsString(t) && ToString(t) in POINTER_TYPE_MAP
    ensures FromType(PointerTo(t)) == Ok(Nullable(TypedWith(FullyQualifiedType(C_VALUES_REF, false),
      [FullyQualifiedType(POINTER_TYPE_MAP[ToString(t)], false)])))
  {
    var p := PointerTo(t);
    NoConstPointerKey(ToString(t));
    NotConstCharPointer(t);
    assert !IsString(p) && IsPointer(p);
    assert Pointed(p) == Ok(t);
  }

  /** No spelling with a cinterop variable type is const-qualified. */
  lemma NoConstPointerKey(k: string)
    requires k in POINTER_TYPE_MAP
    ensures k != "const char"
  {
  }

  lemma NotConstCharPointer(t: CppType)
    requires ToString(t) != "const char"
    ensures ToString(PointerTo(t)) != "const char*"
  {
    var p := PointerTo(t);
    assert ToString(p)[..|ToString(p)| - 1] == ToString(t);
    assert "const char*"[..10] == "const char";
  }

  lemma IntPointerExample()
    ensures FromType(PointerTo(Ref("int"))) == Ok(Nullable(TypedWith(FullyQualifiedType(C_VALUES_REF, false),
      [FullyQualifiedType("kotlinx.cinterop.IntVar", false)])))
  {
    assert NATIVE[10] == "int";
    NativeNotConst("int");
    assert !RefIsString("int");
    PointerToNative(Ref("int"));
  }

  lemma NativeNameExample()
    ensures FromType(Ref("unsigned long")).Ok?
    ensures FromType(Ref("unsigned long")).value.name == "ULong"
  {
    var n := "unsigned long";
    assert NATIVE[15] == n;
    NativeNotConst(n);
    assert !RefIsString(n);
    assert RefIsNative(n);
    assert ToString(Ref(n)) != "const char*";
    assert TYPE_MAP[n] == "ULong";
    SplitWithoutSeparator("ULong", '.');
  }
}
