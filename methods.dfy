/** The decisions taken when a parsed method is resolved: how its return
    value travels back through C, how each argument is cast on the way in,
    which arguments survive resolution, and which implicit leading argument
    (`thiz` or `location`) it gets. */
module Methods {
  import opened Wrappers
  import opened Text
  import opened CppTypes

  datatype MethodType = Constructor | Destructor | Method | StaticOp | Static | SizeOf

  /** `ReturnStyle`: `VOID`, `VOIDP`, `VOIDP_REFERENCE`, `ARG_CAST`, `STRING`,
      `STRING_POINTER`, `COPY_CONSTRUCTOR`, `RETURN`, `RETURN_REFERENCE`. */
  datatype ReturnStyle =
    | VoidStyle | VoidP | VoidPReference | ArgCast | StringStyle | StringPointer
    | CopyConstructor | ReturnValue | ReturnReference

  /** `ArgumentCastMode`: `NATIVE`, `STRING`, `REINT_CAST`, `RAW_CAST`, `STD_MOVE`. */
  datatype ArgumentCastMode = NativeCast | StringCast | ReintCast | RawCast | StdMove

  datatype AllocationStyle = Direct | Stack

  /** A declared argument: its name, type, usr and whether it has a default value. */
  datatype Argument = Argument(name: string, argType: CppType, usr: string, hasDefault: bool)

  /** A parsed method: its declared arguments are the argument children. */
  datatype MethodDecl = MethodDecl(name: string, returnType: CppType, methodType: MethodType, args: seq<Argument>)

  /** A resolved argument. Resolved types are represented by the C++ type
      they resolve. */
  datatype ResolvedArgument = ResolvedArgument(
    name: string,
    argType: CppType,
    signatureType: CppType,
    usr: string,
    castMode: ArgumentCastMode,
    needsDereference: bool,
    hasDefault: bool)

  // ---------------------------------------------------------------------
  // Return style

  /** `determineReturnStyle`, with `canAssign` the resolver's answer for
      the return type. The checks run in this order: void, not returnable,
      string, pointer to string, native or long double, reference, other. */
  function DetermineReturnStyle(t: CppType, canAssign: bool): (r: ReturnStyle)
    ensures r == VoidStyle <==> IsVoid(t)
    ensures r == ArgCast <==> !IsVoid(t) && !IsReturnable(t) && canAssign
    ensures r == CopyConstructor <==> !IsVoid(t) && !IsReturnable(t) && !canAssign
    ensures r == StringStyle <==> !IsVoid(t) && IsReturnable(t) && IsString(t)
    ensures r in {ReturnValue, ReturnReference} ==> IsReturnable(t) && (IsNative(t) || t == LONG_DOUBLE)
    ensures r in {ReturnReference, VoidPReference} ==> IsReference(t)
  {
    if IsVoid(t) then VoidStyle
    else if !IsReturnable(t) then (if canAssign then ArgCast else CopyConstructor)
    else if IsString(t) then StringStyle
    else if IsPointer(t) && IsString(Pointed(t).value) then StringPointer
    else if IsNative(t) || t == LONG_DOUBLE then
      (if IsReference(t) then ReturnReference else ReturnValue)
    else if IsReference(t) then VoidPReference
    else VoidP
  }

  /** The pointee of a pointer is a string only when the pointer's type
      already is one: `isString` of a modified type is its base's. */
  lemma {:induction false} PointedString(t: CppType)
    requires IsPointer(t)
    ensures IsString(Pointed(t).value) ==> IsString(t)
  {
    match t
    case Modified(b, m) =>
    case Prefixed(b, p) => PointedString(b);
  }

  /** As written, the pointer-to-string check comes after the string check
      it is subsumed by: no return type gets `STRING_POINTER`, and a
      `std::string*` return is taken for a string by value. */
  lemma StringPointerUnreachable(t: CppType, canAssign: bool)
    ensures DetermineReturnStyle(t, canAssign) != StringPointer
    ensures DetermineReturnStyle(PointerTo(Ref(STRING)), canAssign) == StringStyle
  {
    if IsPointer(t) {
      PointedString(t);
    }
    assert RefIsString(STRING) by { assert !RefIsConst(STRING) by { assert STRING[0] != 'c'; } }
  }

  /** The return style with the pointer-to-string case checked before the
      string case, as `createPointedStringReturn` expects. */
  function CorrectedReturnStyle(t: CppType, canAssign: bool): (r: ReturnStyle)
    ensures r == StringPointer <==> !IsVoid(t) && IsReturnable(t) && IsPointer(t) && IsString(Pointed(t).value)
    ensures r != StringPointer ==> r == DetermineReturnStyle(t, canAssign)
  {
    if !IsVoid(t) && IsReturnable(t) && IsPointer(t) && IsString(Pointed(t).value) then StringPointer
    else DetermineReturnStyle(t, canAssign)
  }

  lemma CorrectedStringPointer(canAssign: bool)
    ensures CorrectedReturnStyle(PointerTo(Ref(STRING)), canAssign) == StringPointer
    ensures CorrectedReturnStyle(Ref(STRING), canAssign) == StringStyle
  {
    assert RefIsString(STRING) by { assert !RefIsConst(STRING) by { assert STRING[0] != 'c'; } }
  }

  /** `int` is returned directly, `int&` as a native reference. */
  lemma NativeReturnStyles(canAssign: bool)
    ensures DetermineReturnStyle(Ref("int"), canAssign) == ReturnValue
    ensures DetermineReturnStyle(ReferenceTo(Ref("int")), canAssign) == ReturnReference
  {
    assert NATIVE[10] == "int";
    NativeNotConst("int");
    assert !RefIsString("int");
  }

  /** A class pointer or reference returns as `void*`; a class by value goes
      through the trailing argument when it can be assigned and through a
      copy otherwise. */
  lemma ClassReturnStyles(cls: string)
    requires !RefIsReturnable(cls) && !RefIsNative(cls)
    ensures DetermineReturnStyle(Ref(cls), true) == ArgCast
    ensures DetermineReturnStyle(Ref(cls), false) == CopyConstructor
  {
    ClassNotReturnable(cls);
  }

  lemma ClassNotReturnable(cls: string)
    requires !RefIsReturnable(cls)
    ensures !IsVoid(Ref(cls)) && !IsReturnable(Ref(cls))
  {
    assert NATIVE[2] == "void";
  }

  lemma ClassPointerReturnStyles(cls: string, canAssign: bool)
    requires !RefIsReturnable(cls) && !RefIsNative(cls)
    ensures DetermineReturnStyle(PointerTo(Ref(cls)), canAssign) == VoidP
    ensures DetermineReturnStyle(ReferenceTo(Ref(cls)), canAssign) == VoidPReference
  {
    assert !RefIsString(cls);
    assert !IsString(PointerTo(Ref(cls))) && !IsNative(PointerTo(Ref(cls)));
    assert !IsString(ReferenceTo(Ref(cls))) && !IsNative(ReferenceTo(Ref(cls)));
  }

  /** The resolved return type: a type that is neither a pointer nor
      returnable travels as a pointer to it. */
  function ResolvedReturnType(t: CppType): (r: CppType)
    ensures IsReturnable(r)
    ensures IsReturnable(t) ==> r == t
  {
    PointerReturnable(t);
    if !IsPointer(t) && !IsReturnable(t) then PointerTo(t) else t
  }

  /** Every pointer type is returnable. */
  lemma {:induction false} PointerReturnable(t: CppType)
    ensures IsPointer(t) ==> IsReturnable(t)
  {
    match t
    case Prefixed(b, _) => PointerReturnable(b);
    case _ =>
  }

  /** `argCastNeedsPointer`: an `ARG_CAST` return whose (unreferenced) type
      is not already a pointer. */
  function ArgCastNeedsPointer(t: CppType, style: ReturnStyle): (r: bool)
    ensures r ==> style == ArgCast
  {
    if style != ArgCast then false
    else
      !IsPointer(Dereferenced(t))
  }

  /** The type a reference refers to, or the type itself. */
  function Dereferenced(t: CppType): CppType {
    if IsReference(t) then Unreferenced(t).value else t
  }

  // ---------------------------------------------------------------------
  // Arguments

  /** `needsDereference`: the argument is passed as a pointer to it. */
  predicate NeedsDereference(t: CppType) {
    !IsPointer(t) && !IsNative(t) && t != LONG_DOUBLE
  }

  /** `determineArgumentCastMode`; `isReference` is whether the declared
      type was a reference, which resolution has dropped. */
  function DetermineArgumentCastMode(t: CppType, isReference: bool): (r: ArgumentCastMode)
    ensures r == StringCast <==> IsString(t)
    ensures r == NativeCast <==> !IsString(t) && IsNative(t)
    ensures r == RawCast ==> t == LONG_DOUBLE
    ensures r == StdMove ==> !isReference && !IsPointer(t) && StartsWith(ToString(t), "std::unique_ptr")
  {
    if IsString(t) then StringCast
    else if IsNative(t) then NativeCast
    else if t == LONG_DOUBLE then RawCast
    else if !isReference && !IsPointer(t) && StartsWith(ToString(t), "std::unique_ptr") then StdMove
    else ReintCast
  }

  /** `std::string` is a native type too, yet it is cast as a string. */
  lemma StringCastBeforeNative()
    ensures DetermineArgumentCastMode(Ref(STRING), false) == StringCast
    ensures IsNative(Ref(STRING))
  {
    StringIsNative();
  }

  /** A `unique_ptr` by value is moved; by reference or through a pointer it
      is reinterpreted like any class. */
  lemma UniquePtrCast(args: seq<CppType>)
    ensures DetermineArgumentCastMode(Template(Ref("std::unique_ptr"), args), false) == StdMove
    ensures DetermineArgumentCastMode(Template(Ref("std::unique_ptr"), args), true) == ReintCast
    ensures DetermineArgumentCastMode(PointerTo(Template(Ref("std::unique_ptr"), args)), false) == ReintCast
  {
    var t := Template(Ref("std::unique_ptr"), args);
    assert ToString(t) == "std::unique_ptr" + "<" + JoinTypes(args) + ">";
    assert ToString(t)[..15] == "std::unique_ptr";
  }

  /** `resolveArgument`. `mapType` is the resolver's map-and-resolve of a
      type (`None` when it fails) and `resolves` whether a type resolves. */
  function ResolveArgument(a: Argument, mapType: CppType -> Option<CppType>, resolves: CppType -> bool)
    : (r: Option<ResolvedArgument>)
    ensures r.Some? ==> r.value.name == a.name && r.value.usr == a.usr && r.value.hasDefault == a.hasDefault
    ensures r.Some? ==> r.value.needsDereference == NeedsDereference(r.value.argType)
    ensures r.Some? && r.value.needsDereference ==> r.value.signatureType == PointerTo(r.value.argType)
    ensures r.Some? && !r.value.needsDereference ==> r.value.signatureType == r.value.argType
  {
    var unreferenced := if IsReference(a.argType) then Unreferenced(a.argType).value else a.argType;
    var mapped := mapType(unreferenced);
    if mapped.None? then None
    else
      var t := mapped.value;
      var needsDereference := NeedsDereference(t);
      if needsDereference && !resolves(PointerTo(t)) then None
      else
        var signatureType := if needsDereference then PointerTo(t) else t;
        Some(ResolvedArgument(
          a.name, t, signatureType, a.usr,
          DetermineArgumentCastMode(t, IsReference(a.argType)),
          needsDereference, a.hasDefault))
  }

  predicate AllDefault(args: seq<Argument>) {
    forall j :: 0 <= j < |args| ==> args[j].hasDefault
  }

  /** `resolveArguments`: every argument resolved in order; when one fails
      and it and every later one have default values the ones before it are
      kept, otherwise resolution fails. */
  function ResolveArguments(args: seq<Argument>, mapType: CppType -> Option<CppType>, resolves: CppType -> bool)
    : (r: Option<seq<ResolvedArgument>>)
    ensures r.Some? ==> |r.value| <= |args|
    decreases |args|
  {
    if |args| == 0 then Some([])
    else
      var head := ResolveArgument(args[0], mapType, resolves);
      if head.None? then (if AllDefault(args) then Some([]) else None)
      else
        var rest := ResolveArguments(args[1..], mapType, resolves);
        if rest.None? then None else Some([head.value] + rest.value)
  }

  /** The outcome of `resolveArguments` in full: a result keeps a prefix of
      the arguments, each resolved; a shorter one stops at an argument that
      failed, from which on all have defaults; a failure comes from an
      argument that failed with a later argument (or itself) lacking a
      default, after all before it resolved. */
  lemma {:induction false} ResolveArgumentsSpec(args: seq<Argument>, mapType: CppType -> Option<CppType>, resolves: CppType -> bool)
    ensures var r := ResolveArguments(args, mapType, resolves);
      r.Some? ==> (
        && |r.value| <= |args|
        && (forall i :: 0 <= i < |r.value| ==> ResolveArgument(args[i], mapType, resolves) == Some(r.value[i]))
        && (|r.value| < |args| ==>
              ResolveArgument(args[|r.value|], mapType, resolves).None? && AllDefault(args[|r.value|..])))
    ensures var r := ResolveArguments(args, mapType, resolves);
      r.None? ==> exists i :: (
        && 0 <= i < |args|
        && ResolveArgument(args[i], mapType, resolves).None? && !AllDefault(args[i..])
        && forall k :: 0 <= k < i ==> ResolveArgument(args[k], mapType, resolves).Some?)
    decreases |args|
  {
    if |args| > 0 {
      var head := ResolveArgument(args[0], mapType, resolves);
      assert args[0..] == args;
      if head.Some? {
        ResolveArgumentsSpec(args[1..], mapType, resolves);
        var rest := ResolveArguments(args[1..], mapType, resolves);
        if rest.Some? {
          var r := [head.value] + rest.value;
          forall i | 0 <= i < |r|
            ensures ResolveArgument(args[i], mapType, resolves) == Some(r[i])
          {
            if i > 0 {
              assert args[1..][i - 1] == args[i];
            }
          }
          if |rest.value| < |args| - 1 {
            assert args[1..][|rest.value|..] == args[|r|..];
          }
        } else {
          var i :| 0 <= i < |args[1..]|
            && ResolveArgument(args[1..][i], mapType, resolves).None? && !AllDefault(args[1..][i..])
            && forall k :: 0 <= k < i ==> ResolveArgument(args[1..][k], mapType, resolves).Some?;
          assert args[1..][i..] == args[i + 1..];
          forall k | 0 <= k < i + 1
            ensures ResolveArgument(args[k], mapType, resolves).Some?
          {
            if k > 0 {
              assert args[1..][k - 1] == args[k];
            }
          }
        }
      }
    }
  }

  /** `Some(prefix + rest)` when the rest resolved. */
  function Prepend(prefix: seq<ResolvedArgument>, rest: Option<seq<ResolvedArgument>>): Option<seq<ResolvedArgument>> {
    if rest.None? then None else Some(prefix + rest.value)
  }

  /** The loop of `resolveArguments`: `retArgs` grows one resolved argument
      at a time; the first failure either returns what was collected (every
      argument from there on has a default) or fails. */
  method ResolveArgumentsLoop(args: seq<Argument>, mapType: CppType -> Option<CppType>, resolves: CppType -> bool)
    returns (r: Option<seq<ResolvedArgument>>)
    ensures r == ResolveArguments(args, mapType, resolves)
  {
    var retArgs: seq<ResolvedArgument> := [];
    var index := 0;
    assert args[0..] == args;
    assert forall x: seq<ResolvedArgument> :: [] + x == x;
    while index < |args|
      invariant 0 <= index <= |args|
      invariant Prepend(retArgs, ResolveArguments(args[index..], mapType, resolves))
        == ResolveArguments(args, mapType, resolves)
    {
      var resolved := ResolveArgument(args[index], mapType, resolves);
      ghost var tail := args[index..];
      assert tail[0] == args[index] && tail[1..] == args[index + 1..];
      if resolved.Some? {
        ghost var rest := ResolveArguments(args[index + 1..], mapType, resolves);
        if rest.Some? {
          assert retArgs + ([resolved.value] + rest.value) == (retArgs + [resolved.value]) + rest.value;
        }
        retArgs := retArgs + [resolved.value];
      } else {
        if AllDefault(args[index..]) {
          assert retArgs + [] == retArgs;
          return Some(retArgs);
        }
        return None;
      }
      index := index + 1;
    }
    assert args[index..] == [];
    assert retArgs + [] == retArgs;
    return Some(retArgs);
  }

  // ---------------------------------------------------------------------
  // Implicit arguments

  /** `createThisArg`: `thiz`, a pointer to the parent class, needing
      dereference; it fails without a parent class or when that pointer
      type does not resolve. */
  function ThisArg(parentType: Option<CppType>, resolves: CppType -> bool): (r: Option<ResolvedArgument>)
    ensures r.Some? <==> parentType.Some? && resolves(PointerTo(parentType.value))
    ensures r.Some? ==> (
      && r.value.name == "thiz" && r.value.needsDereference
      && r.value.castMode == ReintCast && r.value.argType == PointerTo(parentType.value))
  {
    if parentType.None? then None
    else
      var t := PointerTo(parentType.value);
      if !resolves(t) then None
      else Some(ResolvedArgument("thiz", t, t, "", ReintCast, true, false))
  }

  /** `thizArg` of a method: none for static and `sizeof` methods, one
      `thiz` otherwise. */
  function ThizArgs(methodType: MethodType, parentType: Option<CppType>, resolves: CppType -> bool)
    : (r: Option<seq<ResolvedArgument>>)
    ensures methodType in {Static, SizeOf} ==> r == Some([])
    ensures methodType !in {Static, SizeOf} ==>
      (r.Some? <==> ThisArg(parentType, resolves).Some?)
      && (r.Some? ==> |r.value| == 1 && r.value[0].name == "thiz")
  {
    if methodType == SizeOf || methodType == Static then Some([])
    else
      var thiz := ThisArg(parentType, resolves);
      if thiz.None? then None else Some([thiz.value])
  }

  /** `thizArg` of a constructor: the `location` to construct into, a native
      `void*` passed as is. */
  function LocationArg(): (r: ResolvedArgument)
    ensures r.name == "location" && r.castMode == NativeCast && !r.needsDereference
    ensures r.argType == PointerTo(VOID)
  {
    ResolvedArgument("location", PointerTo(VOID), PointerTo(VOID), "", NativeCast, false, false)
  }

}
