/** The Kotlin wrapper methods (`KotlinWriter.kt`): how a resolved method
    or field becomes a Kotlin function or property whose body calls the C
    shim through `ptr`, converting wrapper arguments and results. */
module KotlinWriter {
  import opened Wrappers
  import opened Text
  import opened Methods
  import opened ResolvedTypes
  import Operators
  import opened KotlinNames

  // ---------------------------------------------------------------------
  // Kotlin expressions and statements

  /** The Kotlin expressions a wrapper body is made of. */
  datatype KExpr =
    | Var(name: string)
    | Lit(text: string)
    /** `x.ptr`, or `x?.ptr` when `nullSafe`. */
    | Ptr(target: KExpr, nullSafe: bool)
    /** A call of a function by its simple name (`extensionMethod`). */
    | CallFn(fn: string, args: seq<KExpr>)
    /** `memScope.T_Holder()`: a place for a wrapper result. */
    | Holder(typeName: string)
    /** `T(p, memScope)`: a wrapper around the pointer `p`. */
    | Construct(typeName: string, pointer: KExpr)
    /** `x ?: return null`. */
    | ElvisReturnNull(value: KExpr)
    /** `x!!`. */
    | Asserting(value: KExpr)
    /** `x?.toKString()`. */
    | ToKString(value: KExpr)

  datatype KStmt =
    | Val(name: string, typeName: string, init: KExpr)
    | Do(expr: KExpr)
    | Ret(expr: KExpr)

  /** The text of an expression. */
  function ExprText(e: KExpr): string
    decreases e
  {
    match e
    case Var(n) => n
    case Lit(t) => t
    case Ptr(x, nullSafe) => ExprText(x) + (if nullSafe then "?.ptr" else ".ptr")
    case CallFn(fn, args) =>
      fn + "(" + Join(seq(|args|, i requires 0 <= i < |args| => ExprText(args[i])), ", ") + ")"
    case Holder(t) => "memScope." + t + "_Holder()"
    case Construct(t, p) => t + "(" + ExprText(p) + ", memScope)"
    case ElvisReturnNull(x) => ExprText(x) + " ?: return null"
    case Asserting(x) => ExprText(x) + "!!"
    case ToKString(x) => ExprText(x) + "?.toKString()"
  }

  const PTR: KExpr := Lit("ptr")

  /** The local names the function scope gave the result holder and the
      two string temporaries (`retValue`, `str`, `ret` unless taken). */
  datatype Locals = Locals(retValue: string, str: string, ret: string)

  /** `reference(type, v)`: a wrapper is passed as its pointer, through `?.`
      when its type is written nullable. */
  function Reference(kType: Option<ResolvedKotlinType>, v: string): (r: KExpr)
    requires kType.Some? ==> WellFormed(kType.value)
  {
    if kType.Some? && kType.value.isWrapper then Ptr(Var(v), EndsWith(Name(kType.value), "?"))
    else Var(v)
  }

  /** A wrapper argument is `v.ptr`, or `v?.ptr` when nullable; anything
      else is the variable itself. */
  lemma ReferenceText(t: ResolvedKotlinType, v: string)
    requires WellFormed(t) && (|t.templates| > 0 || !EndsWith(MappedName(t), "?"))
    ensures t.isWrapper && t.isNullable ==> ExprText(Reference(Some(t), v)) == v + "?.ptr"
    ensures t.isWrapper && !t.isNullable ==> ExprText(Reference(Some(t), v)) == v + ".ptr"
    ensures !t.isWrapper ==> ExprText(Reference(Some(t), v)) == v
    ensures ExprText(Reference(None, v)) == v
  {
    NullableSuffix(t);
  }

  /** `constructorMethod(type)`: the wrapper's name without `?`. */
  function WrapperName(t: ResolvedKotlinType): (r: string)
    requires WellFormed(t)
    ensures StartsWith(Name(t), r)
    ensures |r| > 0 ==> r[|r| - 1] != '?'
  {
    TrimEndChar(Name(t), '?')
  }

  const KOTLIN_STRING: string := "kotlin.String"

  /** `generateReturn`: a wrapper result is wrapped again (`?: return null`
      when nullable, `!!` otherwise), a string is copied out and its C
      buffer freed, anything else is returned as it is. */
  function GenerateReturn(returnType: ResolvedKotlinType, call: KExpr, locals: Locals): (r: seq<KStmt>)
    requires WellFormed(returnType)
    ensures |r| >= 1 && r[|r| - 1].Ret?
    ensures returnType.isWrapper ==>
      r == [Ret(Construct(WrapperName(returnType),
                          if returnType.isNullable then ElvisReturnNull(call) else Asserting(call)))]
    ensures !returnType.isWrapper && FullyQualified(returnType) != KOTLIN_STRING ==> r == [Ret(call)]
    ensures !returnType.isWrapper && FullyQualified(returnType) == KOTLIN_STRING ==>
      && |r| == 4
      && r[0] == Val(locals.str, "CPointer<ByteVar>?", call)
      && r[1] == Val(locals.ret, "String?", ToKString(Var(locals.str)))
      && r[2] == Do(CallFn("free", [Var(locals.str)]))
      && r[3] == Ret(Var(locals.ret))
  {
    if returnType.isWrapper then
      var pointer := if returnType.isNullable then ElvisReturnNull(call) else Asserting(call);
      [Ret(Construct(WrapperName(returnType), pointer))]
    else if FullyQualified(returnType) == KOTLIN_STRING then
      [
        Val(locals.str, "CPointer<ByteVar>?", call),
        Val(locals.ret, "String?", ToKString(Var(locals.str))),
        Do(CallFn("free", [Var(locals.str)])),
        Ret(Var(locals.ret))
      ]
    else [Ret(call)]
  }

  /** `generateMethodBody`: an `ARG_CAST` wrapper result is written into a
      holder passed as the last C argument and the holder is returned;
      otherwise the C call's result is returned through `generateReturn`. */
  function MethodBody(args: seq<KExpr>, style: ReturnStyle, returnType: ResolvedKotlinType, cName: string, locals: Locals)
    : (r: seq<KStmt>)
    requires WellFormed(returnType)
    ensures |r| >= 1 && r[|r| - 1].Ret?
    ensures style == ArgCast && returnType.isWrapper ==>
      r == [
        Val(locals.retValue, Name(returnType), Holder(WrapperName(returnType))),
        Do(CallFn(cName, args + [Reference(Some(returnType), locals.retValue)])),
        Ret(Var(locals.retValue))
      ]
    ensures !(style == ArgCast && returnType.isWrapper) ==>
      r == GenerateReturn(returnType, CallFn(cName, args), locals)
  {
    if style == ArgCast && returnType.isWrapper then
      var ret := locals.retValue;
      [
        Val(ret, Name(returnType), Holder(WrapperName(returnType))),
        Do(CallFn(cName, args + [Reference(Some(returnType), ret)])),
        Ret(Var(ret))
      ]
    else GenerateReturn(returnType, CallFn(cName, args), locals)
  }

  // ---------------------------------------------------------------------
  // Methods, operators and fields

  /** A declared argument on the Kotlin side: its name and Kotlin type. */
  datatype KotlinArg = KotlinArg(name: string, kType: ResolvedKotlinType)

  /** The Kotlin view of a resolved method: the Kotlin types of its
      arguments (the first is `thiz` for members) and of its result. */
  datatype KotlinMethod = KotlinMethod(
    name: string,
    methodType: MethodType,
    returnStyle: ReturnStyle,
    returnType: ResolvedKotlinType,
    args: seq<KotlinArg>,
    uniqueCName: string,
    operator: Option<Operators.Operator>)

  predicate MethodWellFormed(m: KotlinMethod) {
    WellFormed(m.returnType) && forall i :: 0 <= i < |m.args| ==> WellFormed(m.args[i].kType)
  }

  datatype Modifier = PlainFun | OperatorFun | InfixFun

  /** A generated Kotlin function: its modifier, name, parameters, whether
      it is an extension on `MemScope`, and its body. */
  datatype KFunction = KFunction(
    modifier: Modifier,
    name: string,
    params: seq<KotlinArg>,
    returnType: ResolvedKotlinType,
    onMemScope: bool,
    body: seq<KStmt>)

  function References(params: seq<KotlinArg>): (r: seq<KExpr>)
    requires forall i :: 0 <= i < |params| ==> WellFormed(params[i].kType)
    ensures |r| == |params|
    ensures forall i :: 0 <= i < |params| ==> r[i] == Reference(Some(params[i].kType), params[i].name)
  {
    if |params| == 0 then [] else [Reference(Some(params[0].kType), params[0].name)] + References(params[1..])
  }

  /** `generateBasicMethod`: the member function named `methodName` (as a
      Kotlin name), taking the declared arguments after `thiz`, whose body
      calls the C function with `startArgs` and then those arguments. */
  function GenerateBasicMethod(m: KotlinMethod, methodName: string, startArgs: seq<KExpr>, modifier: Modifier, locals: Locals)
    : (r: KFunction)
    requires MethodWellFormed(m)
    ensures r.name == KotlinMethodName(methodName) && r.modifier == modifier && !r.onMemScope
    ensures r.params == (if |m.args| > 0 then m.args[1..] else [])
    ensures r.returnType == m.returnType
    ensures r.body == MethodBody(startArgs + References(r.params), m.returnStyle, m.returnType, m.uniqueCName, locals)
  {
    var params := if |m.args| > 0 then m.args[1..] else [];
    var body := MethodBody(startArgs + References(params), m.returnStyle, m.returnType, m.uniqueCName, locals);
    KFunction(modifier, KotlinMethodName(methodName), params, m.returnType, false, body)
  }

  /** The modifier of an operator's Kotlin form: `operator fun` for a
      Kotlin operator, `infix fun` for an infix method, plain otherwise. */
  function OperatorModifier(k: Operators.KotlinOperatorType): Modifier {
    match k
    case KotlinOperator(_) => OperatorFun
    case InfixMethod(_) => InfixFun
    case _ => PlainFun
  }

  /** `generateOperator`: the operator's Kotlin form decides the modifier
      and the name; the post-increment and post-decrement forms drop the
      declared arguments and pass a literal `0` after `ptr`. */
  function GenerateOperator(op: Operators.Operator, m: KotlinMethod, locals: Locals): (r: KFunction)
    requires MethodWellFormed(m)
    ensures r.name == KotlinMethodName(op.kotlinType.name) && r.modifier == OperatorModifier(op.kotlinType)
    ensures op.kotlinType.BasicWithDummyMethod? ==>
      r.params == [] && r.body == MethodBody([PTR, Lit("0")], m.returnStyle, m.returnType, m.uniqueCName, locals)
    ensures !op.kotlinType.BasicWithDummyMethod? ==>
      r.params == (if |m.args| > 0 then m.args[1..] else [])
      && r.body == MethodBody([PTR] + References(r.params), m.returnStyle, m.returnType, m.uniqueCName, locals)
  {
    if op.kotlinType.BasicWithDummyMethod? then
      assert [PTR, Lit("0")] + References([]) == [PTR, Lit("0")];
      GenerateBasicMethod(m.(args := []), op.kotlinType.name, [PTR, Lit("0")], PlainFun, locals)
    else
      GenerateBasicMethod(m, op.kotlinType.name, [PTR], OperatorModifier(op.kotlinType), locals)
  }

  /** `onGenerate(method)` for a static method: an extension function on
      `MemScope` taking every declared argument, with no `ptr`. */
  function StaticMethod(m: KotlinMethod, locals: Locals): (r: KFunction)
    requires MethodWellFormed(m)
    ensures r.onMemScope && r.modifier == PlainFun && r.name == KotlinMethodName(m.name)
    ensures r.params == m.args
    ensures r.body == MethodBody(References(m.args), m.returnStyle, m.returnType, m.uniqueCName, locals)
  {
    KFunction(PlainFun, KotlinMethodName(m.name), m.args, m.returnType, true,
              MethodBody(References(m.args), m.returnStyle, m.returnType, m.uniqueCName, locals))
  }

  /** What `onGenerate(cls, method)` emits. Constructors go to
      `generateConstructor`, which this model does not detail. */
  datatype Generated = NoMethod | ConstructorWrapper | Function(f: KFunction)

  /** `onGenerate(cls, method)`: nothing for a destructor (nor for the
      size query, which its `when` does not list), the top-level
      form for a static method, the operator form for an operator, and a
      plain member function, renamed by `fixNaming`, for the rest. */
  function GenerateMethod(m: KotlinMethod, locals: Locals): (r: Generated)
    requires MethodWellFormed(m)
    ensures r.NoMethod? <==> m.methodType in {Destructor, SizeOf}
    ensures r.ConstructorWrapper? <==> m.methodType == Constructor
    ensures m.methodType == Static ==> r == Function(StaticMethod(m, locals))
    ensures m.methodType in {Method, StaticOp} && m.operator.Some? ==>
      r == Function(GenerateOperator(m.operator.value, m, locals))
    ensures m.methodType in {Method, StaticOp} && m.operator.None? ==>
      && r.Function?
      && r.f.name == KotlinMethodName(FixNaming(m.name))
      && r.f.modifier == PlainFun
  {
    match m.methodType
    case Constructor => ConstructorWrapper
    case Destructor => NoMethod
    case Static => Function(StaticMethod(m, locals))
    case SizeOf => NoMethod
    case _ =>
      if m.operator.Some? then Function(GenerateOperator(m.operator.value, m, locals))
      else Function(GenerateBasicMethod(m.(name := FixNaming(m.name)), FixNaming(m.name), [PTR], PlainFun, locals))
  }

  /** A plain member function named like an infix wrapper is generated
      under `<name>_method`, so it never shares the infix wrapper's name. */
  lemma InfixNamedMethod(m: KotlinMethod, locals: Locals)
    requires MethodWellFormed(m) && m.methodType == Method && m.operator.None?
    requires m.name in INFIX_LIST
    ensures GenerateMethod(m, locals).f.name == m.name + "_method"
  {
    InfixMethodName(m.name);
  }

  /** A wrapper result returned through `ARG_CAST` from a post-increment:
      the function `postIncrement` takes no parameters, allocates a holder,
      calls the C function with `ptr`, `0` and the holder's pointer, and
      returns the holder. */
  lemma PostIncrementWrapper(m: KotlinMethod, locals: Locals)
    requires MethodWellFormed(m) && m.methodType == Method && m.operator == Some(Operators.POST_INC)
    requires m.returnStyle == ArgCast && m.returnType.isWrapper && !m.returnType.isNullable
    requires |m.returnType.templates| > 0 || !EndsWith(MappedName(m.returnType), "?")
    ensures GenerateMethod(m, locals) == Function(GenerateOperator(Operators.POST_INC, m, locals))
    ensures var f := GenerateOperator(Operators.POST_INC, m, locals);
      && f.name == "postIncrement" && f.modifier == PlainFun && f.params == []
      && f.body == PostIncrementBody(m, locals)
    ensures ExprText(PostIncrementBody(m, locals)[1].expr) == m.uniqueCName + "(ptr, 0, " + locals.retValue + ".ptr)"
  {
    PostIncrementOperator(m, locals);
    PostIncrementCallText(m.uniqueCName, locals.retValue);
  }

  /** The three statements of a post-increment returning a wrapper. */
  function PostIncrementBody(m: KotlinMethod, locals: Locals): seq<KStmt>
    requires WellFormed(m.returnType)
  {
    [
      Val(locals.retValue, Name(m.returnType), Holder(WrapperName(m.returnType))),
      Do(CallFn(m.uniqueCName, [PTR, Lit("0"), Ptr(Var(locals.retValue), false)])),
      Ret(Var(locals.retValue))
    ]
  }

  lemma PostIncrementOperator(m: KotlinMethod, locals: Locals)
    requires MethodWellFormed(m)
    requires m.returnStyle == ArgCast && m.returnType.isWrapper && !m.returnType.isNullable
    requires |m.returnType.templates| > 0 || !EndsWith(MappedName(m.returnType), "?")
    ensures var f := GenerateOperator(Operators.POST_INC, m, locals);
      f.name == "postIncrement" && f.modifier == PlainFun && f.params == [] && f.body == PostIncrementBody(m, locals)
  {
    PostIncrementShape(m, locals);
    PostIncrementArgCast(m, locals);
  }

  lemma PostIncrementArgCast(m: KotlinMethod, locals: Locals)
    requires MethodWellFormed(m)
    requires m.returnStyle == ArgCast && m.returnType.isWrapper && !m.returnType.isNullable
    requires |m.returnType.templates| > 0 || !EndsWith(MappedName(m.returnType), "?")
    ensures MethodBody([PTR, Lit("0")], ArgCast, m.returnType, m.uniqueCName, locals) == PostIncrementBody(m, locals)
  {
    ArgCastNonNullWrapper([PTR, Lit("0")], m.returnType, m.uniqueCName, locals);
    assert [PTR, Lit("0")] + [Ptr(Var(locals.retValue), false)] == [PTR, Lit("0"), Ptr(Var(locals.retValue), false)];
  }

  /** `postIncrement` is a plain function without parameters that passes
      `ptr` and `0` first. */
  lemma PostIncrementShape(m: KotlinMethod, locals: Locals)
    requires MethodWellFormed(m)
    ensures var f := GenerateOperator(Operators.POST_INC, m, locals);
      && f.name == "postIncrement" && f.modifier == PlainFun && f.params == []
      && f.body == MethodBody([PTR, Lit("0")], m.returnStyle, m.returnType, m.uniqueCName, locals)
  {
    assert Operators.POST_INC.kotlinType == Operators.BasicWithDummyMethod("postIncrement");
    PostIncrementName();
  }

  /** An `ARG_CAST` result of a non-nullable wrapper type passes the
      holder as `retValue.ptr` after the other arguments. */
  lemma ArgCastNonNullWrapper(args: seq<KExpr>, t: ResolvedKotlinType, cName: string, locals: Locals)
    requires WellFormed(t) && t.isWrapper && !t.isNullable
    requires |t.templates| > 0 || !EndsWith(MappedName(t), "?")
    ensures MethodBody(args, ArgCast, t, cName, locals) == [
      Val(locals.retValue, Name(t), Holder(WrapperName(t))),
      Do(CallFn(cName, args + [Ptr(Var(locals.retValue), false)])),
      Ret(Var(locals.retValue))
    ]
  {
    NullableSuffix(t);
  }

  lemma PostIncrementCallText(cName: string, retValue: string)
    ensures ExprText(CallFn(cName, [PTR, Lit("0"), Ptr(Var(retValue), false)]))
      == cName + "(ptr, 0, " + retValue + ".ptr)"
  {
    var args := [PTR, Lit("0"), Ptr(Var(retValue), false)];
    var texts := seq(3, i requires 0 <= i < 3 => ExprText(args[i]));
    assert ExprText(Var(retValue)) == retValue;
    assert texts[0] == "ptr" && texts[1] == "0" && texts[2] == retValue + ".ptr";
    assert texts[1..][1..] == [retValue + ".ptr"];
    assert Join(texts[1..], ", ") == "0" + ", " + (retValue + ".ptr");
  }

  /** The Kotlin view of a resolved field. */
  datatype KotlinField = KotlinField(
    name: string,
    isConst: bool,
    kType: ResolvedKotlinType,
    getterCName: string,
    getterStyle: ReturnStyle,
    getterType: ResolvedKotlinType,
    setterCName: string)

  /** A generated property: its getter body and, unless the field is
      const, its setter body (the setter's parameter is `value`). */
  datatype KProperty = KProperty(name: string, kType: ResolvedKotlinType, getter: seq<KStmt>, setter: Option<seq<KStmt>>)

  /** `onGenerate(cls, field)`. */
  function GenerateField(f: KotlinField, locals: Locals): (r: KProperty)
    requires WellFormed(f.kType) && WellFormed(f.getterType)
    ensures r.name == f.name && r.kType == f.kType
    ensures r.getter == MethodBody([PTR], f.getterStyle, f.getterType, f.getterCName, locals)
    ensures r.setter.None? <==> f.isConst
    ensures r.setter.Some? ==>
      r.setter.value == [Do(CallFn(f.setterCName, [PTR, Reference(Some(f.kType), "value")]))]
  {
    var getter := MethodBody([PTR], f.getterStyle, f.getterType, f.getterCName, locals);
    var setter := if f.isConst then None
                  else Some([Do(CallFn(f.setterCName, [PTR, Reference(Some(f.kType), "value")]))]);
    KProperty(f.name, f.kType, getter, setter)
  }
}
