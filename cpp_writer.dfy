/** The bodies of the C shim functions (`CppWriter.kt`): each argument is
    cast from its C form to its C++ form, the wrapped member is called and
    its result is handed back according to the method's return style. */
module CppWriter {
  import opened Wrappers
  import opened Text
  import opened CppTypes
  import opened Methods
  import opened MethodResolve
  import opened Symbols
  import opened Signatures
  import Operators

  /** How a local variable made by a cast is initialised. */
  datatype Init =
    | FromSymbol(value: Symbol)
    /** `reinterpret_cast<T>(v)` of the local `v` to the type `T`. */
    | ReinterpretOf(local: string, target: CppType)

  /** The statements a body is made of. The symbols whose rendering is
      defined outside this model (`addressOf`, placement `new`, the string
      copy sequence) are named by what they emit. */
  datatype Stmt =
    | Emit(symbol: Symbol)
    /** `define(name, type, initializer)`. */
    | Define(name: string, localType: CppType, init: Init)
    /** `return (void*)&(call)`. */
    | ReturnAddressAsVoidP(call: Symbol)
    /** `return &(call)`. */
    | ReturnAddress(call: Symbol)
    /** `return new (location) call`. */
    | ReturnNewAt(call: Symbol, location: Symbol)
    /** The string copy: `ret_value` holds the result, `ret_value_cast` a
        new `char` array one longer than it, the characters are copied into
        it and the array is returned; `throughPointer` uses `->` for `.`. */
    | StringCopyReturn(call: Symbol, throughPointer: bool)

  predicate Returns(s: Stmt) {
    || (s.Emit? && s.symbol.Return?)
    || s.ReturnAddressAsVoidP? || s.ReturnAddress? || s.ReturnNewAt? || s.StringCopyReturn?
  }

  // ---------------------------------------------------------------------
  // Argument casts

  /** `generateArgumentCast`: a native argument is used as is; any other
      gets a local `local` (the name the scope allocated for
      `<name>_cast`) of its C++ type, and the argument then refers to that
      local. */
  function ArgumentCast(a: SignatureArgument, local: string): (r: (SignatureArgument, Option<Stmt>))
    ensures r.0.arg == a.arg
    ensures r.1.None? <==> a.arg.castMode == NativeCast
    ensures r.1.None? ==> r.0 == a
    ensures r.1.Some? ==>
      && r.0.localVar == local
      && r.1.value.Define? && r.1.value.name == local && r.1.value.localType == a.arg.signatureType
    ensures a.arg.castMode == StringCast ==>
      r.1.value.init == FromSymbol(Call(Raw("std::string"), [Reference(a.localVar)]))
    ensures a.arg.castMode == ArgumentCastMode.RawCast ==>
      r.1.value.init == FromSymbol(Symbol.RawCast(ToString(a.arg.signatureType), Reference(a.localVar)))
    ensures a.arg.castMode in {StdMove, ReintCast} ==>
      r.1.value.init == ReinterpretOf(a.localVar, a.arg.signatureType)
  {
    var t := a.arg.signatureType;
    match a.arg.castMode
    case NativeCast => (a, None)
    case StringCast =>
      (a.(localVar := local), Some(Define(local, t, FromSymbol(Call(Raw("std::string"), [Reference(a.localVar)])))))
    case RawCast() =>
      (a.(localVar := local), Some(Define(local, t, FromSymbol(Symbol.RawCast(ToString(t), Reference(a.localVar))))))
    case _ =>
      (a.(localVar := local), Some(Define(local, t, ReinterpretOf(a.localVar, t))))
  }

  /** The casts of all arguments in order: the cast arguments and the
      definitions they need. */
  function ArgumentCasts(args: seq<SignatureArgument>, locals: seq<string>): (r: (seq<SignatureArgument>, seq<Stmt>))
    requires |locals| == |args|
    ensures |r.0| == |args|
    ensures forall i :: 0 <= i < |args| ==> r.0[i] == ArgumentCast(args[i], locals[i]).0
    ensures |r.1| == |args| - NativeCount(args)
    ensures forall s :: s in r.1 ==> s.Define?
  {
    if |args| == 0 then ([], [])
    else
      var head := ArgumentCast(args[0], locals[0]);
      var rest := ArgumentCasts(args[1..], locals[1..]);
      var defs := if head.1.Some? then [head.1.value] + rest.1 else rest.1;
      ([head.0] + rest.0, defs)
  }

  function NativeCount(args: seq<SignatureArgument>): (r: nat)
    ensures r <= |args|
  {
    if |args| == 0 then 0 else (if args[0].arg.castMode == NativeCast then 1 else 0) + NativeCount(args[1..])
  }

  function References(args: seq<SignatureArgument>): (r: seq<Symbol>)
    ensures |r| == |args|
    ensures forall i :: 0 <= i < |r| ==> r[i] == ArgReference(args[i])
  {
    if |args| == 0 then [] else [ArgReference(args[0])] + References(args[1..])
  }

  // ---------------------------------------------------------------------
  // Returns

  /** `generateReturn` as written: its `when` has no branch for
      `RETURN_REFERENCE`, which emits nothing. `returnCast` is the cast
      `ret_value` argument of an `ARG_CAST` method (`!!` fails without it). */
  function GenerateReturnAsWritten(call: Symbol, style: ReturnStyle, returnType: CppType, returnCast: Option<SignatureArgument>)
    : (r: Result<seq<Stmt>>)
    ensures r.Fail? <==> style == ArgCast && returnCast.None?
    ensures r.Fail? ==> r.error == NullPointer
    ensures style == ReturnReference ==> r == Ok([])
    ensures r.Ok? && style != ReturnReference ==> r.value == GenerateReturn(call, style, returnType, returnCast).value
  {
    if style == ReturnReference then Ok([]) else GenerateReturn(call, style, returnType, returnCast)
  }

  /** `generateReturn` with the missing branch: a `RETURN_REFERENCE` method
      returns the address of the referenced value, matching its C return
      type, a pointer. */
  function GenerateReturn(call: Symbol, style: ReturnStyle, returnType: CppType, returnCast: Option<SignatureArgument>)
    : (r: Result<seq<Stmt>>)
    ensures r.Fail? <==> style == ArgCast && returnCast.None?
    ensures r.Fail? ==> r.error == NullPointer
    ensures r.Ok? ==> |r.value| == 1
    // a value comes back by a return statement except for `void`, which
    // only evaluates the call, and for `ARG_CAST`, which assigns it to
    // `ret_value`
    ensures r.Ok? && style !in {VoidStyle, ArgCast} ==> Returns(r.value[0])
    ensures r.Ok? && style == ArgCast ==> !Returns(r.value[0])
    ensures style == VoidStyle ==> r == Ok([Emit(call)])
    ensures style == ArgCast && returnCast.Some? ==>
      r == Ok([Emit(Assign(ArgReference(returnCast.value), call))])
    ensures style == CopyConstructor ==>
      r == Ok([Emit(Return(New(Call(Raw(ToConstructor(returnType)), [call]))))])
  {
    match style
    case VoidStyle => Ok([Emit(call)])
    case VoidPReference => Ok([ReturnAddressAsVoidP(call)])
    case VoidP => Ok([Emit(Return(Symbol.RawCast("void*", call)))])
    case ArgCast =>
      if returnCast.None? then Fail(NullPointer)
      else Ok([Emit(Assign(ArgReference(returnCast.value), call))])
    case StringStyle => Ok([StringCopyReturn(call, false)])
    case StringPointer => Ok([StringCopyReturn(call, true)])
    case CopyConstructor => Ok([Emit(Return(New(Call(Raw(ToConstructor(returnType)), [call]))))])
    case ReturnValue => Ok([Emit(Return(call))])
    case ReturnReference => Ok([ReturnAddress(call)])
  }

  /** A method returning `int&` is given the C return type `int*`, yet as
      written its body returns nothing. */
  lemma ReferenceReturnMissing(call: Symbol, uniqueCName: string, args: seq<ResolvedArgument>)
    ensures DetermineReturnStyle(ReferenceTo(Ref("int")), false) == ReturnReference
    ensures CType(ReferenceTo(Ref("int"))) == Ok(PointerTo(Ref("int")))
    ensures var m := ResolvedMethod("get", ReferenceTo(Ref("int")), ReferenceTo(Ref("int")), Method, uniqueCName,
        None, args, ReturnReference, false, Direct);
      MethodSignature(m).value.retType == Some(ReferenceTo(Ref("int")))
    ensures GenerateReturnAsWritten(call, ReturnReference, ReferenceTo(Ref("int")), None) == Ok([])
    ensures Returns(GenerateReturn(call, ReturnReference, ReferenceTo(Ref("int")), None).value[0])
  {
    IntIsNative();
  }

  lemma IntIsNative()
    ensures IsNative(Ref("int")) && !IsString(Ref("int")) && IsReturnable(ReferenceTo(Ref("int")))
  {
    assert NATIVE[10] == "int";
  }

  // ---------------------------------------------------------------------
  // Names

  /** `toConstructor`: the type's spelling without trailing `*` and
      without a leading `const `. */
  function ToConstructor(t: CppType): (r: string)
    ensures |r| > 0 ==> r[|r| - 1] != '*' || StartsWith(ToString(t), "const ")
  {
    var s := TrimEndChar(ToString(t), '*');
    if StartsWith(s, "const ") then s[6..] else s
  }

  /** A pointer to a class, const or not, constructs the class. */
  lemma ToConstructorOfPointer(n: string)
    requires |n| > 0 && n[|n| - 1] != '*' && !StartsWith(n, "const ")
    ensures ToConstructor(PointerTo(Ref(n))) == n
    ensures ToConstructor(PointerTo(Prefixed(Ref(n), "const"))) == n
  {
    var p := n + "*";
    assert ToString(PointerTo(Ref(n))) == p;
    assert p[..|p| - 1] == n;
    assert TrimEndChar(n, '*') == n;
    var q := "const " + n + "*";
    assert ToString(PointerTo(Prefixed(Ref(n), "const"))) == q;
    assert q[..|q| - 1] == "const " + n;
    assert TrimEndChar("const " + n, '*') == "const " + n;
    assert ("const " + n)[..6] == "const ";
    assert ("const " + n)[6..] == n;
  }

  /** `removeTemplate`: the name up to its first `<`. */
  function RemoveTemplate(s: string): (r: string)
    ensures StartsWith(s, r) && '<' !in r
    ensures '<' !in s ==> r == s
    ensures '<' in s ==> |r| < |s| && s[|r|] == '<'
  {
    var i := IndexOf(s, '<', 0);
    if i == -1 then s
    else
      assert s[..i][..i] == s[..i];
      s[..i]
  }

  // ---------------------------------------------------------------------
  // Method bodies

  /** `generateMethodBody`. `args` are the signature arguments (with
      `ret_value` last for `ARG_CAST`), `locals` the names allocated for
      their casts, `cls` the class type. */
  function MethodBody(cls: CppType, m: ResolvedMethod, args: seq<SignatureArgument>, locals: seq<string>)
    : (r: Result<seq<Stmt>>)
    requires |locals| == |args|
    requires m.operator.Some? ==> m.operator.value in Operators.ALL_OPERATORS
    // the casts come first, in argument order
    ensures r.Ok? ==> ArgumentCasts(args, locals).1 <= r.value
    ensures m.methodType == Constructor && m.returnStyle != ArgCast ==>
      && (r.Ok? <==> |args| > 0)
      && (r.Ok? ==>
            var cast := ArgumentCasts(args, locals).0;
            r.value == ArgumentCasts(args, locals).1
              + [ReturnNewAt(Call(Raw(ToString(cls)), References(cast[1..])), ArgReference(cast[0]))])
    ensures m.methodType == SizeOf && m.returnStyle != ArgCast ==>
      r == Ok(ArgumentCasts(args, locals).1 + [Emit(Return(Call(Raw("sizeof"), [Raw(ToString(cls))])))])
    // a destructor needs its `thiz` passed as a pointer
    ensures m.methodType == Destructor && m.returnStyle != ArgCast ==>
      && (r.Ok? <==> |args| > 0 && args[0].arg.needsDereference)
      && (r.Ok? ==>
            var thiz := ArgumentCasts(args, locals).0[0];
            r.value == ArgumentCasts(args, locals).1
              + [Emit(Arrow(Reference(thiz.localVar), Call(Raw(RemoveTemplate(m.name)), [])))])
  {
    var casts := ArgumentCasts(args, locals);
    var defs := casts.1;
    var all := casts.0;
    if m.returnStyle == ArgCast && |all| == 0 then Fail(NoSuchElement)
    else
      var returnCast := if m.returnStyle == ArgCast then Some(all[|all| - 1]) else None;
      var rest := if m.returnStyle == ArgCast then all[..|all| - 1] else all;
      var body := CallAndReturn(cls, m, rest, returnCast);
      if body.Fail? then Fail(body.error) else Ok(defs + body.value)
  }

  /** The part of `generateMethodBody` after the casts; `cast` are the cast
      arguments without `ret_value`. */
  function CallAndReturn(cls: CppType, m: ResolvedMethod, cast: seq<SignatureArgument>, returnCast: Option<SignatureArgument>)
    : (r: Result<seq<Stmt>>)
    requires m.operator.Some? ==> m.operator.value in Operators.ALL_OPERATORS
    ensures m.methodType in {Constructor, Destructor, StaticOp, Method} && |cast| == 0 ==> r == Fail(NoSuchElement)
    ensures m.methodType == Method && |cast| > 0 && !cast[0].arg.needsDereference ==> r == Fail(IllegalArgument)
    ensures m.methodType == StaticOp && |cast| > 0 && |cast| != 2 ==> r.Fail?
  {
    match m.methodType
    case Constructor =>
      if |cast| == 0 then Fail(NoSuchElement)
      else Ok([ReturnNewAt(Call(Raw(ToString(cls)), References(cast[1..])), ArgReference(cast[0]))])
    case SizeOf => Ok([Emit(Return(Call(Raw("sizeof"), [Raw(ToString(cls))])))])
    case Destructor =>
      if |cast| == 0 then Fail(NoSuchElement)
      else
        var thiz := PointerReference(cast[0]);
        if thiz.Fail? then Fail(thiz.error)
        else Ok([Emit(Arrow(thiz.value, Call(Raw(RemoveTemplate(m.name)), [])))])
    case StaticOp =>
      if |cast| == 0 then Fail(NoSuchElement)
      else if |m.name| < |Operators.OPERATOR_PREFIX| then Fail(IndexOutOfBounds)
      else if |cast| == 1 then Fail(NoSuchElement)
      else if |cast| > 2 then Fail(IllegalArgument)
      else
        var call := Op(m.name[|Operators.OPERATOR_PREFIX|..], ArgReference(cast[0]), ArgReference(cast[1]));
        GenerateReturn(call, m.returnStyle, m.returnType, returnCast)
    case Static =>
      var call := Call(Raw(ToString(cls) + "::" + m.name), References(cast));
      GenerateReturn(call, m.returnStyle, m.returnType, returnCast)
    case Method =>
      if |cast| == 0 then Fail(NoSuchElement)
      else
        var thiz := PointerReference(cast[0]);
        if thiz.Fail? then Fail(thiz.error)
        else if m.operator.Some? && m.operator.value.supportsDirectCall then
          if |cast| == 1 then Fail(NoSuchElement)
          else
            var call := Op(m.operator.value.cppOp, Dereference(thiz.value), ArgReference(cast[1]));
            GenerateReturn(call, m.returnStyle, m.returnType, returnCast)
        else if m.operator.Some? && m.operator.value.kind == Operators.Assignment then
          if |cast| == 1 then Fail(NoSuchElement)
          else
            var call := AssignTo(Dereference(thiz.value), ArgReference(cast[1]), m.operator.value == Operators.PLUS_EQUALS);
            GenerateReturn(call, m.returnStyle, m.returnType, returnCast)
        else
          var call := Arrow(thiz.value, Call(Raw(m.name), References(cast[1..])));
          GenerateReturn(call, m.returnStyle, m.returnType, returnCast)
  }

  /** The two-argument `assign` of the generator's symbol helpers: a plain
      assignment, or `+=` when `plusEquals` is set. */
  function AssignTo(target: Symbol, value: Symbol, plusEquals: bool): Symbol {
    if plusEquals then Op("+=", target, value) else Assign(target, value)
  }

  /** An operator method calls the C++ operator on the dereferenced `thiz`
      when the operator allows a direct call, assigns through it for `=` and
      `+=`, and otherwise calls the operator member by name. */
  lemma OperatorMethodCall(cls: CppType, m: ResolvedMethod, cast: seq<SignatureArgument>, returnCast: Option<SignatureArgument>)
    requires m.methodType == Method && m.operator.Some? && m.operator.value in Operators.ALL_OPERATORS
    requires |cast| > 1 && cast[0].arg.needsDereference
    ensures var op := m.operator.value;
      var thiz := Dereference(Reference(cast[0].localVar));
      CallAndReturn(cls, m, cast, returnCast) == GenerateReturn(
        if op.kind == Operators.Binary && op != Operators.IND && op != Operators.POST_INC && op != Operators.POST_DEC
        then Op(op.cppOp, thiz, ArgReference(cast[1]))
        else if op == Operators.ASSIGN then Assign(thiz, ArgReference(cast[1]))
        else if op == Operators.PLUS_EQUALS then Op("+=", thiz, ArgReference(cast[1]))
        else Arrow(Reference(cast[0].localVar), Call(Raw(m.name), References(cast[1..]))),
        m.returnStyle, m.returnType, returnCast)
  {
    Operators.DirectCallOperators(m.operator.value);
    Operators.AssignmentsNamed(m.operator.value);
  }

  /** A plain method calls the member through `thiz` with the remaining
      arguments, and hands the result back by its return style. */
  lemma PlainMethodCall(cls: CppType, m: ResolvedMethod, cast: seq<SignatureArgument>, returnCast: Option<SignatureArgument>)
    requires m.methodType == Method && m.operator.None?
    requires |cast| > 0 && cast[0].arg.needsDereference
    ensures CallAndReturn(cls, m, cast, returnCast)
      == GenerateReturn(Arrow(Reference(cast[0].localVar), Call(Raw(m.name), References(cast[1..]))),
                        m.returnStyle, m.returnType, returnCast)
  {
  }

  // ---------------------------------------------------------------------
  // Field bodies

  /** `generateFieldGetBody`: `thiz->field`, handed back by the getter's
      return style; `locals` are the names allocated for the casts of `thiz`
      and of `ret_value`. */
  function FieldGetBody(f: ResolvedField, args: seq<SignatureArgument>, locals: seq<string>): (r: Result<seq<Stmt>>)
    requires |locals| == 2
    ensures |args| == 0 ==> r == Fail(IndexOutOfBounds)
    ensures |args| > 0 && !args[0].arg.needsDereference ==> r == Fail(IllegalArgument)
    ensures r.Ok? ==>
      var thiz := ArgumentCast(args[0], locals[0]);
      var ret := GenerateReturn(
        Arrow(Reference(thiz.0.localVar), Raw(f.name)), f.getter.returnStyle, f.getter.returnType,
        if |args| > 1 then Some(ArgumentCast(args[1], locals[1]).0) else None);
      && |r.value| > 0 && ret.Ok?
      && (thiz.1.Some? ==> r.value[0] == thiz.1.value)
      && r.value[|r.value| - 1] == ret.value[0]
  {
    if |args| == 0 then Fail(IndexOutOfBounds)
    else
      var thiz := ArgumentCast(args[0], locals[0]);
      var fetch := PointerReference(thiz.0);
      if fetch.Fail? then Fail(fetch.error)
      else
        var thizDefs := if thiz.1.Some? then [thiz.1.value] else [];
        var retCast := if |args| > 1 then Some(ArgumentCast(args[1], locals[1])) else None;
        var retDefs := if retCast.Some? && retCast.value.1.Some? then [retCast.value.1.value] else [];
        var ret := GenerateReturn(Arrow(fetch.value, Raw(f.name)), f.getter.returnStyle, f.getter.returnType,
          if retCast.Some? then Some(retCast.value.0) else None);
        if ret.Fail? then Fail(ret.error)
        else
          Ok(thizDefs + retDefs + ret.value)
  }

  /** `generateFieldSetBody`: `thiz->field = value`. */
  function FieldSetBody(f: ResolvedField, args: seq<SignatureArgument>, locals: seq<string>): (r: Result<seq<Stmt>>)
    requires |locals| == 2
    // `thiz` is taken as a pointer before the value is looked at
    ensures |args| == 0 ==> r == Fail(IndexOutOfBounds)
    ensures |args| > 0 && !args[0].arg.needsDereference ==> r == Fail(IllegalArgument)
    ensures |args| == 1 && args[0].arg.needsDereference ==> r == Fail(IndexOutOfBounds)
    ensures r.Ok? <==> |args| >= 2 && args[0].arg.needsDereference
    ensures r.Ok? ==>
      var thiz := ArgumentCast(args[0], locals[0]);
      var value := ArgumentCast(args[1], locals[1]);
      |r.value| > 0 && r.value[|r.value| - 1] == Emit(Assign(Arrow(Reference(thiz.0.localVar), Raw(f.name)), ArgReference(value.0)))
  {
    if |args| == 0 then Fail(IndexOutOfBounds)
    else
      var thiz := ArgumentCast(args[0], locals[0]);
      var fetch := PointerReference(thiz.0);
      if fetch.Fail? then Fail(fetch.error)
      else if |args| == 1 then Fail(IndexOutOfBounds)
      else
        var value := ArgumentCast(args[1], locals[1]);
        var thizDefs := if thiz.1.Some? then [thiz.1.value] else [];
        var valueDefs := if value.1.Some? then [value.1.value] else [];
        Ok(thizDefs + valueDefs + [Emit(Assign(Arrow(fetch.value, Raw(f.name)), ArgReference(value.0)))])
  }
}
