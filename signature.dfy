/** The C signature of a shim function: its name, its return type and its
    arguments, each paired with the local variable the function defines for
    it (`Signature.kt`). */
module Signatures {
  import opened Wrappers
  import opened Text
  import opened CppTypes
  import opened Methods
  import opened MethodResolve
  import opened Symbols

  /** The name and return type a function builder is given. `retType` is
      the type whose C spelling is returned; `None` leaves the builder
      without a return type. */
  datatype FunctionSignature = FunctionSignature(name: string, retType: Option<CppType>)

  /** `generateMethodSignature`. Its `when` has no branch for static
      methods, which leave the builder untouched (`None`). */
  function MethodSignature(m: ResolvedMethod): (r: Option<FunctionSignature>)
    ensures r.None? <==> m.methodType == Static
    ensures r.Some? ==> r.value.name == m.uniqueCName
    ensures m.methodType == Constructor ==> r.value.retType == Some(m.returnCType)
    ensures m.methodType == Destructor ==> r.value.retType.None?
    ensures m.methodType in {SizeOf, StaticOp, Method} ==>
      && (r.value.retType.None? <==> m.returnStyle in {ArgCast, VoidStyle})
      && (r.value.retType.Some? ==> r.value.retType.value == m.returnCType)
  {
    match m.methodType
    case Constructor => Some(FunctionSignature(m.uniqueCName, Some(m.returnCType)))
    case Destructor => Some(FunctionSignature(m.uniqueCName, None))
    case Static => None
    case _ =>
      var ret := if m.returnStyle != ArgCast && m.returnStyle != VoidStyle then Some(m.returnCType) else None;
      Some(FunctionSignature(m.uniqueCName, ret))
  }

  /** The argument through which an `ARG_CAST` result is written back. */
  function RetValueArg(returnType: CppType, cType: CppType, needsDereference: bool): (r: ResolvedArgument)
    ensures r.name == "ret_value" && r.castMode == ReintCast && r.needsDereference == needsDereference
    ensures r.argType == returnType && r.signatureType == cType
  {
    ResolvedArgument("ret_value", returnType, cType, "", ReintCast, needsDereference, false)
  }

  /** `addArgs`: the method's arguments, and for `ARG_CAST` one more,
      `ret_value`, at the end. */
  function AddArgs(m: ResolvedMethod): (r: seq<ResolvedArgument>)
    ensures |r| == |m.args| + (if m.returnStyle == ArgCast then 1 else 0)
    ensures r[..|m.args|] == m.args
    ensures m.returnStyle == ArgCast ==>
      r[|m.args|] == RetValueArg(m.returnType, m.returnCType, m.argCastNeedsPointer)
  {
    if m.returnStyle == ArgCast then m.args + [RetValueArg(m.returnType, m.returnCType, m.argCastNeedsPointer)]
    else m.args
  }

  /** A method without a C return value is either `void` or hands its
      result back through the trailing `ret_value` argument; a method with
      one has no such argument. */
  lemma ResultTravelsOnce(m: ResolvedMethod)
    requires m.methodType in {SizeOf, StaticOp, Method}
    ensures MethodSignature(m).value.retType.None? <==>
      m.returnStyle == VoidStyle || (|AddArgs(m)| == |m.args| + 1 && AddArgs(m)[|m.args|].name == "ret_value")
  {
  }

  /** A signature argument: the resolved argument and the name of the local
      variable defined for it. */
  datatype SignatureArgument = SignatureArgument(arg: ResolvedArgument, localVar: string)

  /** `defineWrapperArgument` over a list: the arguments paired in order with
      the locals the function scope allocated for their names. */
  function DefineArguments(args: seq<ResolvedArgument>, locals: seq<string>): (r: seq<SignatureArgument>)
    requires |locals| == |args|
    ensures |r| == |args|
    ensures forall i :: 0 <= i < |r| ==> r[i].arg == args[i] && r[i].localVar == locals[i]
  {
    if |args| == 0 then [] else [SignatureArgument(args[0], locals[0])] + DefineArguments(args[1..], locals[1..])
  }

  /** `SignatureArgument.reference`: how the argument is used in the call. */
  function ArgReference(a: SignatureArgument): Symbol {
    if a.arg.castMode == StdMove then Call(Raw("std::move"), [Dereference(Reference(a.localVar))])
    else if a.arg.needsDereference then Dereference(Reference(a.localVar))
    else Reference(a.localVar)
  }

  /** `reference` as text: `std::move(*(x))` for a moved argument, `*(x)`
      for one passed as a pointer, the plain name otherwise. */
  lemma ArgReferenceText(a: SignatureArgument, semis: bool)
    ensures a.arg.castMode == StdMove ==>
      Flat(ArgReference(a), semis) == "std::move" + "(" + ("*(" + a.localVar + ")") + ")"
    ensures a.arg.castMode != StdMove && a.arg.needsDereference ==>
      Flat(ArgReference(a), semis) == "*(" + a.localVar + ")"
    ensures a.arg.castMode != StdMove && !a.arg.needsDereference ==>
      Flat(ArgReference(a), semis) == a.localVar
  {
    if a.arg.castMode == StdMove {
      var inner := Dereference(Reference(a.localVar));
      assert FlatAll([inner], semis) == [Flat(inner, semis)];
    }
  }

  /** `pointerReference`: only an argument passed as a pointer has one. */
  function PointerReference(a: SignatureArgument): (r: Result<Symbol>)
    ensures r.Fail? <==> !a.arg.needsDereference
    ensures r.Fail? ==> r.error == IllegalArgument
    ensures r.Ok? ==> r.value == Reference(a.localVar) && Flat(r.value, false) == a.localVar
  {
    if !a.arg.needsDereference then Fail(IllegalArgument) else Ok(Reference(a.localVar))
  }

  /** A dereferenced argument's reference is `*` of its pointer reference. */
  lemma ReferenceOfPointer(a: SignatureArgument)
    requires a.arg.needsDereference && a.arg.castMode != StdMove
    ensures ArgReference(a) == Dereference(PointerReference(a).value)
  {
  }

  // ---------------------------------------------------------------------
  // Fields

  datatype FieldGetter = FieldGetter(
    uniqueCName: string,
    returnStyle: ReturnStyle,
    returnType: CppType,
    args: seq<ResolvedArgument>,
    needsDereference: bool)

  datatype FieldSetter = FieldSetter(uniqueCName: string, argument: seq<ResolvedArgument>)

  datatype ResolvedField = ResolvedField(name: string, isConst: bool, getter: FieldGetter, setter: FieldSetter)

  /** `generateFieldGet`: the getter's name, its return type or `void`,
      and its arguments with `ret_value` added for `ARG_CAST`. */
  function FieldGet(f: ResolvedField): (r: (FunctionSignature, seq<ResolvedArgument>))
    ensures r.0.name == f.getter.uniqueCName && r.0.retType.Some?
    ensures r.0.retType.value == VOID <==> f.getter.returnStyle in {ArgCast, VoidStyle} || f.getter.returnType == VOID
    ensures |r.1| == |f.getter.args| + (if f.getter.returnStyle == ArgCast then 1 else 0)
    ensures r.1[..|f.getter.args|] == f.getter.args
    ensures f.getter.returnStyle == ArgCast ==>
      r.1[|f.getter.args|] == RetValueArg(f.getter.returnType, f.getter.returnType, f.getter.needsDereference)
  {
    var g := f.getter;
    var ret := if g.returnStyle != ArgCast && g.returnStyle != VoidStyle then g.returnType else VOID;
    var args := if g.returnStyle == ArgCast then g.args + [RetValueArg(g.returnType, g.returnType, g.needsDereference)] else g.args;
    (FunctionSignature(g.uniqueCName, Some(ret)), args)
  }

  /** `generateFieldSet`: the setter's name, `void`, and its arguments. */
  function FieldSet(f: ResolvedField): (r: (FunctionSignature, seq<ResolvedArgument>))
    ensures r.0 == FunctionSignature(f.setter.uniqueCName, Some(VOID))
    ensures r.1 == f.setter.argument
  {
    (FunctionSignature(f.setter.uniqueCName, Some(VOID)), f.setter.argument)
  }

  /** A getter always names a return type, `void` when nothing is returned
      directly; a method signature leaves it out instead. */
  lemma GetterVersusMethod(f: ResolvedField, m: ResolvedMethod)
    requires m.methodType == Method && m.returnStyle == f.getter.returnStyle
    requires m.returnStyle in {ArgCast, VoidStyle}
    ensures FieldGet(f).0.retType == Some(VOID)
    ensures MethodSignature(m).value.retType == None
  {
  }
}
