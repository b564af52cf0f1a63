/** `resolve` of methods, constructors and destructors: a parsed method
    becomes a resolved one with its return style, its resolved return type
    and its full C argument list (implicit arguments included), or
    resolution fails. */
module MethodResolve {
  import opened Wrappers
  import opened CppTypes
  import opened Methods
  import Operators

  /** A resolved method. Resolved types are represented by the C++ type they
      resolve; `returnCType` is the type whose C spelling the shim returns,
      which differs from `returnType` when an `ARG_CAST` result travels
      through a pointer. */
  datatype ResolvedMethod = ResolvedMethod(
    name: string,
    returnType: CppType,
    returnCType: CppType,
    methodType: MethodType,
    uniqueCName: string,
    operator: Option<Operators.Operator>,
    args: seq<ResolvedArgument>,
    returnStyle: ReturnStyle,
    argCastNeedsPointer: bool,
    allocationStyle: AllocationStyle)

  /** The type of the stack constructor's callback argument: a `void*`
      spelled as the callback type, whose text is defined outside this
      model. */
  const STACK_CALLBACK_TYPE: CppType := Ref("STACK_CONSTRUCTOR_CALLBACK")

  /** `WrappedMethod.resolve`. `mapType` is the resolver's `map` (`None`
      when a type does not map), `resolves` whether a type resolves and
      `canAssign` the resolver's answer for the return type. */
  function ResolveMethod(
    m: MethodDecl, parentType: Option<CppType>, uniqueCName: string,
    mapType: CppType -> Option<CppType>, resolves: CppType -> bool, canAssign: CppType -> bool)
    : (r: Option<ResolvedMethod>)
    // it fails exactly when the return type, the returned (possibly
    // pointed) type, the pointer an ARG_CAST needs, `thiz` or an argument
    // does not resolve
    ensures r.None? <==>
      || mapType(m.returnType).None?
      || mapType(ResolvedReturnType(mapType(m.returnType).value)).None?
      || (ArgCastNeedsPointer(mapType(m.returnType).value,
            DetermineReturnStyle(mapType(m.returnType).value, canAssign(mapType(m.returnType).value)))
          && mapType(PointerTo(mapType(m.returnType).value)).None?)
      || ThizArgs(m.methodType, parentType, resolves).None?
      || ResolveArguments(m.args, mapType, resolves).None?
    ensures r.Some? ==>
      var t := mapType(m.returnType).value;
      && r.value.returnStyle == DetermineReturnStyle(t, canAssign(t))
      && r.value.returnType == mapType(ResolvedReturnType(t)).value
      && (r.value.argCastNeedsPointer <==> r.value.returnStyle == ArgCast && !IsPointer(Dereferenced(t)))
      && (r.value.argCastNeedsPointer ==> r.value.returnCType == mapType(PointerTo(t)).value)
      && (!r.value.argCastNeedsPointer ==> r.value.returnCType == r.value.returnType)
    // static methods and `sizeof` take only the declared arguments; every
    // other method takes `thiz` first
    ensures r.Some? ==>
      var declared := ResolveArguments(m.args, mapType, resolves).value;
      if m.methodType in {Static, SizeOf} then r.value.args == declared
      else
        && |r.value.args| == |declared| + 1 && r.value.args[1..] == declared
        && r.value.args[0].name == "thiz" && r.value.args[0].needsDereference
        && r.value.args[0].argType == PointerTo(parentType.value)
    ensures r.Some? ==> r.value.operator == Operators.From(m.name, |m.args|)
    ensures r.Some? ==> r.value.name == m.name && r.value.methodType == m.methodType && r.value.uniqueCName == uniqueCName
  {
    var raw := mapType(m.returnType);
    if raw.None? then None
    else
      var t := raw.value;
      var style := DetermineReturnStyle(t, canAssign(t));
      var resolved := mapType(ResolvedReturnType(t));
      if resolved.None? then None
      else
        var needsPointer := ArgCastNeedsPointer(t, style);
        if needsPointer && mapType(PointerTo(t)).None? then None
        else
          var cType := if needsPointer then mapType(PointerTo(t)).value else resolved.value;
          var thiz := ThizArgs(m.methodType, parentType, resolves);
          var declared := ResolveArguments(m.args, mapType, resolves);
          if thiz.None? || declared.None? then None
          else
            Some(ResolvedMethod(
              m.name, resolved.value, cType, m.methodType, uniqueCName,
              Operators.From(m.name, |m.args|), thiz.value + declared.value,
              style, needsPointer, Direct))
  }

  /** `WrappedConstructor.resolve`: the constructed pointer (or `void*` for a
      stack constructor), the `location` argument, the declared arguments
      and, for a stack constructor, the callback. */
  function ResolveConstructor(
    name: string, args: seq<Argument>, allocationStyle: AllocationStyle,
    parentType: Option<CppType>, uniqueCName: string,
    mapType: CppType -> Option<CppType>, resolves: CppType -> bool)
    : (r: Option<ResolvedMethod>)
    ensures r.None? <==>
      || (allocationStyle == Direct && parentType.None?)
      || mapType(if allocationStyle == Direct then PointerTo(parentType.value) else VOID).None?
      || ResolveArguments(args, mapType, resolves).None?
      || (allocationStyle == Stack && (parentType.None? || !resolves(parentType.value)))
    ensures r.Some? ==>
      && r.value.methodType == Constructor && r.value.returnStyle == VoidP
      && !r.value.argCastNeedsPointer && r.value.operator.None?
      && r.value.allocationStyle == allocationStyle
      && r.value.returnType == mapType(if allocationStyle == Direct then PointerTo(parentType.value) else VOID).value
    ensures r.Some? ==>
      var declared := ResolveArguments(args, mapType, resolves).value;
      && |r.value.args| == 1 + |declared| + (if allocationStyle == Stack then 1 else 0)
      && r.value.args[0] == LocationArg()
      && r.value.args[1..1 + |declared|] == declared
      && (allocationStyle == Stack ==> r.value.args[|r.value.args| - 1].name == "callback")
  {
    if allocationStyle == Direct && parentType.None? then None
    else
      var pointed := if allocationStyle == Direct then PointerTo(parentType.value) else VOID;
      var returnType := mapType(pointed);
      var declared := ResolveArguments(args, mapType, resolves);
      var post := PostArgs(allocationStyle, parentType, resolves);
      if returnType.None? || declared.None? || post.None? then None
      else
        Some(ResolvedMethod(
          name, returnType.value, returnType.value, Constructor, uniqueCName, None,
          [LocationArg()] + declared.value + post.value, VoidP, false, allocationStyle))
  }

  /** `postArgs`: a stack constructor takes a trailing callback, which
      needs the class type to resolve. */
  function PostArgs(allocationStyle: AllocationStyle, parentType: Option<CppType>, resolves: CppType -> bool)
    : (r: Option<seq<ResolvedArgument>>)
    ensures allocationStyle == Direct ==> r == Some([])
    ensures allocationStyle == Stack ==>
      (r.Some? <==> parentType.Some? && resolves(parentType.value))
      && (r.Some? ==>
            (&& |r.value| == 1 && r.value[0].name == "callback" && r.value[0].castMode == ReintCast
             && !r.value[0].needsDereference))
  {
    if allocationStyle != Stack then Some([])
    else if parentType.None? || !resolves(parentType.value) then None
    else Some([ResolvedArgument("callback", STACK_CALLBACK_TYPE, STACK_CALLBACK_TYPE, "", ReintCast, false, false)])
  }

  /** `WrappedDestructor.resolve`: a `void` function of `thiz` alone. */
  function ResolveDestructor(
    name: string, returnType: CppType, parentType: Option<CppType>, uniqueCName: string,
    mapType: CppType -> Option<CppType>, resolves: CppType -> bool)
    : (r: Option<ResolvedMethod>)
    ensures r.None? <==> mapType(returnType).None? || ThisArg(parentType, resolves).None?
    ensures r.Some? ==>
      && r.value.methodType == Destructor && r.value.returnStyle == VoidStyle
      && |r.value.args| == 1 && r.value.args[0].name == "thiz"
  {
    var rt := mapType(returnType);
    var thiz := ThisArg(parentType, resolves);
    if rt.None? || thiz.None? then None
    else Some(ResolvedMethod(name, rt.value, rt.value, Destructor, uniqueCName, None, [thiz.value], VoidStyle, false, Direct))
  }
}
