/** Type mapping during resolution (`Resolver.kt`): a type is taken apart
    down to the leaves a handler decides on, and a replacement is wrapped
    back into the same modifiers, prefixes, arrays and templates. */
module TypeResolver {
  import opened Wrappers
  import opened CppTypes

  /** What a mapping decides for a type. */
  datatype MapResult = RemoveElement | ElementUnchanged | ReplaceWith(replacement: CppType)

  /** The type a mapping result stands for: none when removed, the type
      itself when unchanged, the replacement otherwise. */
  function Apply(t: CppType, r: MapResult): Option<CppType> {
    match r
    case RemoveElement => None
    case ElementUnchanged => Some(t)
    case ReplaceWith(x) => Some(x)
  }

  /** `wrapOnReplace`: a replacement is wrapped, the other two results are
      passed through. */
  function WrapOnReplace(r: MapResult, wrap: CppType -> CppType): (w: MapResult)
    ensures !r.ReplaceWith? ==> w == r
    ensures r.ReplaceWith? ==> w.ReplaceWith?
  {
    if r.ReplaceWith? then ReplaceWith(wrap(r.replacement)) else r
  }

  /** Wrapping a result stands for wrapping the type it stands for. */
  lemma WrapCommutes(t: CppType, r: MapResult, wrap: CppType -> CppType)
    ensures Apply(wrap(t), WrapOnReplace(r, wrap)) ==
      (if r.RemoveElement? then None else Some(wrap(Apply(t, r).value)))
  {
  }

  /** A handler that may throw. */
  type Handler = CppType -> Result<MapResult>

  function Wrapped(r: Result<MapResult>, wrap: CppType -> CppType): Result<MapResult> {
    if r.Fail? then r else Ok(WrapOnReplace(r.value, wrap))
  }

  /** `operateOn`: modified and prefixed types and arrays recurse into their
      component and re-wrap a replacement; a template goes through
      `handleTemplate`; the handler decides on everything else. The pointer
      and reference branches of the source are reached by modified types
      first, so they have no case of their own here. */
  function OperateOn(t: CppType, h: Handler): Result<MapResult>
    decreases Weight(t), 0
  {
    match t
    case Modified(b, m) => Wrapped(OperateOn(b, h), x => Modified(x, m))
    case Prefixed(b, p) => Wrapped(OperateOn(b, h), x => Prefixed(x, p))
    case Ref(n) =>
      if RefIsArray(n) then
        var element := RefArrayType(n);
        if element.Fail? then Fail(element.error)
        else Wrapped(OperateOn(Ref(element.value), h), ArrayOf)
      else h(t)
    case Template(b, args) => HandleTemplate(b, args, h)
    case _ => h(t)
  }

  /** The template arguments mapped in order: `None` as soon as one is
      removed (the later ones are not looked at), a failure as soon as one
      throws. */
  function MapArgs(args: seq<CppType>, h: Handler): (r: Result<Option<seq<CppType>>>)
    decreases WeightSum(args), 1
    ensures r.Ok? && r.value.Some? ==> |r.value.value| == |args|
  {
    if |args| == 0 then Ok(Some([]))
    else
      var r := OperateOn(args[0], h);
      if r.Fail? then Fail(r.error)
      else if r.value.RemoveElement? then Ok(None)
      else
        var rest := MapArgs(args[1..], h);
        if rest.Fail? then rest
        else if rest.value.None? then Ok(None)
        else Ok(Some([Apply(args[0], r.value).value] + rest.value.value))
  }

  /** `handleTemplate`: the template is rebuilt from its mapped arguments
      and then handed to the handler; an unchanged answer becomes a
      replacement by the rebuilt template. */
  function HandleTemplate(b: CppType, args: seq<CppType>, h: Handler): (r: Result<MapResult>)
    decreases WeightSum(args), 2
    ensures r.Ok? ==> !r.value.ElementUnchanged?
  {
    var mapped := MapArgs(args, h);
    if mapped.Fail? then Fail(mapped.error)
    else if mapped.value.None? then Ok(RemoveElement)
    else
      var rebuilt := Template(b, mapped.value.value);
      var r := h(rebuilt);
      if r.Fail? then r
      else if r.value.ElementUnchanged? then Ok(ReplaceWith(rebuilt))
      else r
  }

  /** A modified type is mapped through its base: it fails, is removed or
      is kept exactly when the base is, and a replacement keeps the
      modifier. */
  lemma ModifierKept(b: CppType, m: string, h: Handler)
    ensures var r := OperateOn(Modified(b, m), h); var inner := OperateOn(b, h);
      && (r.Ok? <==> inner.Ok?)
      && (r.Ok? ==>
            Apply(Modified(b, m), r.value) ==
            (if inner.value.RemoveElement? then None else Some(Modified(Apply(b, inner.value).value, m))))
  {
    var inner := OperateOn(b, h);
    if inner.Ok? {
      WrapCommutes(b, inner.value, x => Modified(x, m));
    }
  }

  /** The same for a prefixed type. */
  lemma PrefixKept(b: CppType, p: string, h: Handler)
    ensures var r := OperateOn(Prefixed(b, p), h); var inner := OperateOn(b, h);
      && (r.Ok? <==> inner.Ok?)
      && (r.Ok? ==>
            Apply(Prefixed(b, p), r.value) ==
            (if inner.value.RemoveElement? then None else Some(Prefixed(Apply(b, inner.value).value, p))))
  {
    var inner := OperateOn(b, h);
    if inner.Ok? {
      WrapCommutes(b, inner.value, x => Prefixed(x, p));
    }
  }

  /** An argument that is removed, after arguments that are all kept,
      removes the whole argument list... */
  lemma {:induction false} MapArgsRemoved(args: seq<CppType>, h: Handler, i: nat)
    requires i < |args| && OperateOn(args[i], h) == Ok(RemoveElement)
    requires forall j :: 0 <= j < i ==> OperateOn(args[j], h).Ok? && !OperateOn(args[j], h).value.RemoveElement?
    ensures MapArgs(args, h) == Ok(None)
    decreases i
  {
    if i > 0 {
      MapArgsRemoved(args[1..], h, i - 1);
    }
  }

  /** ...and so the template, whatever the handler says of it. */
  lemma TemplateArgRemoved(b: CppType, args: seq<CppType>, h: Handler, i: nat)
    requires i < |args| && OperateOn(args[i], h) == Ok(RemoveElement)
    requires forall j :: 0 <= j < i ==> OperateOn(args[j], h).Ok? && !OperateOn(args[j], h).value.RemoveElement?
    ensures OperateOn(Template(b, args), h) == Ok(RemoveElement)
  {
    MapArgsRemoved(args, h, i);
  }

  /** The handler keeps every part of `t` it is asked about (and every
      array name has its `[`). */
  predicate Keeps(t: CppType, h: Handler)
    decreases Weight(t)
  {
    match t
    case Modified(b, _) => Keeps(b, h)
    case Prefixed(b, _) => Keeps(b, h)
    case Ref(n) =>
      if RefIsArray(n) then
        var element := RefArrayType(n);
        element.Ok? && Keeps(Ref(element.value), h)
      else h(t) == Ok(ElementUnchanged)
    case Template(_, args) =>
      && (forall i :: 0 <= i < |args| ==> WeightBelow(args, i) && Keeps(args[i], h))
      && h(t) == Ok(ElementUnchanged)
    case _ => h(t) == Ok(ElementUnchanged)
  }

  /** Every argument weighs no more than the list. */
  predicate WeightBelow(args: seq<CppType>, i: int)
    requires 0 <= i < |args|
  {
    Weight(args[i]) <= WeightSum(args)
  }

  lemma {:induction false} WeightsBelow(args: seq<CppType>, i: nat)
    requires i < |args|
    ensures WeightBelow(args, i)
    decreases i
  {
    if i > 0 {
      WeightsBelow(args[1..], i - 1);
    }
  }

  /** When the handler keeps every part, mapping gives back the type
      itself: unchanged, or (through a template, which is always rebuilt)
      replaced by an equal type. */
  lemma {:induction false} KeptTypeUnchanged(t: CppType, h: Handler)
    requires Keeps(t, h)
    ensures OperateOn(t, h) == Ok(ElementUnchanged) || OperateOn(t, h) == Ok(ReplaceWith(t))
    ensures t.Ref? ==> OperateOn(t, h) == Ok(ElementUnchanged)
    decreases Weight(t), 0
  {
    match t
    case Modified(b, m) =>
      KeptTypeUnchanged(b, h);
    case Prefixed(b, p) =>
      KeptTypeUnchanged(b, h);
    case Ref(n) =>
      if RefIsArray(n) {
        KeptTypeUnchanged(Ref(RefArrayType(n).value), h);
      }
    case Template(b, args) =>
      KeptArgsUnchanged(args, h);
    case _ =>
  }

  lemma {:induction false} KeptArgsUnchanged(args: seq<CppType>, h: Handler)
    requires forall i :: 0 <= i < |args| ==> WeightBelow(args, i) && Keeps(args[i], h)
    ensures MapArgs(args, h) == Ok(Some(args))
    decreases WeightSum(args), 1
  {
    if |args| > 0 {
      KeptTypeUnchanged(args[0], h);
      forall i | 0 <= i < |args[1..]|
        ensures WeightBelow(args[1..], i) && Keeps(args[1..][i], h)
      {
        WeightsBelow(args[1..], i);
        assert args[1..][i] == args[i + 1];
      }
      KeptArgsUnchanged(args[1..], h);
      assert [args[0]] + args[1..] == args;
    }
  }

  /** A handler that never removes anything makes the whole mapping never
      remove anything. */
  ghost predicate NeverRemoves(h: Handler) {
    forall x :: h(x).Ok? ==> !h(x).value.RemoveElement?
  }

  lemma {:induction false} NoRemoval(t: CppType, h: Handler)
    requires NeverRemoves(h)
    ensures OperateOn(t, h).Ok? ==> !OperateOn(t, h).value.RemoveElement?
    decreases Weight(t), 0
  {
    match t
    case Modified(b, m) => NoRemoval(b, h);
    case Prefixed(b, p) => NoRemoval(b, h);
    case Ref(n) =>
      if RefIsArray(n) && RefArrayType(n).Ok? {
        NoRemoval(Ref(RefArrayType(n).value), h);
      }
    case Template(b, args) => NoArgRemoval(args, h);
    case _ =>
  }

  lemma {:induction false} NoArgRemoval(args: seq<CppType>, h: Handler)
    requires NeverRemoves(h)
    ensures MapArgs(args, h).Ok? ==> MapArgs(args, h).value.Some?
    decreases WeightSum(args), 1
  {
    if |args| > 0 {
      NoRemoval(args[0], h);
      NoArgRemoval(args[1..], h);
    }
  }

  // ---------------------------------------------------------------------
  // Reference policies

  /** How an unresolvable leaf is treated. */
  datatype Policy = IgnoreMissing | OpaqueMissing | ThrowMissing

  /** `typeMapper(policy)` on one leaf: a resolvable leaf is unchanged;
      otherwise it is removed, replaced by `void*`, or an
      `IllegalStateException` is thrown. */
  function LeafDecision(p: Policy, resolvable: bool): (r: Result<MapResult>)
    ensures resolvable ==> r == Ok(ElementUnchanged)
    ensures !resolvable && p == IgnoreMissing ==> r == Ok(RemoveElement)
    ensures !resolvable && p == OpaqueMissing ==> r == Ok(ReplaceWith(PointerTo(VOID)))
    ensures !resolvable && p == ThrowMissing ==> r == Fail(IllegalState)
  {
    if resolvable then Ok(ElementUnchanged)
    else match p
      case IgnoreMissing => Ok(RemoveElement)
      case OpaqueMissing => Ok(ReplaceWith(PointerTo(VOID)))
      case ThrowMissing => Fail(IllegalState)
  }

  /** The handler a policy builds from a resolvability test. */
  function PolicyHandler(p: Policy, canResolve: CppType -> bool): Handler {
    x => LeafDecision(p, canResolve(x))
  }

  /** The mapping of a policy. */
  function TypeMapping(p: Policy, canResolve: CppType -> bool, t: CppType): Result<MapResult> {
    OperateOn(t, PolicyHandler(p, canResolve))
  }

  /** With `OPAQUE_MISSING` or `THROW_MISSING` nothing is ever removed. */
  lemma OpaqueAndThrowKeep(p: Policy, canResolve: CppType -> bool, t: CppType)
    requires p != IgnoreMissing
    ensures TypeMapping(p, canResolve, t).Ok? ==> !TypeMapping(p, canResolve, t).value.RemoveElement?
  {
    var h := PolicyHandler(p, canResolve);
    forall x ensures h(x).Ok? ==> !h(x).value.RemoveElement? {
      assert h(x) == LeafDecision(p, canResolve(x));
    }
    NoRemoval(t, h);
  }

  /** With `THROW_MISSING`, an unresolvable argument of a template makes
      the mapping throw; with `IGNORE_MISSING` it removes the template. */
  lemma UnresolvableArgument(canResolve: CppType -> bool, b: CppType, arg: string)
    requires !RefIsArray(arg) && !canResolve(Ref(arg))
    ensures TypeMapping(ThrowMissing, canResolve, Template(b, [Ref(arg)])) == Fail(IllegalState)
    ensures TypeMapping(IgnoreMissing, canResolve, Template(b, [Ref(arg)])) == Ok(RemoveElement)
  {
    var h := PolicyHandler(ThrowMissing, canResolve);
    assert OperateOn(Ref(arg), h) == Fail(IllegalState);
    assert MapArgs([Ref(arg)], h) == Fail(IllegalState);
    assert HandleTemplate(b, [Ref(arg)], h) == Fail(IllegalState);
    assert OperateOn(Template(b, [Ref(arg)]), h) == Fail(IllegalState);
    TemplateArgRemoved(b, [Ref(arg)], PolicyHandler(IgnoreMissing, canResolve), 0);
  }

  /** When every part is resolvable, every policy gives the type back. */
  lemma ResolvableUnchanged(p: Policy, canResolve: CppType -> bool, t: CppType)
    requires Keeps(t, PolicyHandler(p, canResolve))
    ensures TypeMapping(p, canResolve, t).Ok?
    ensures Apply(t, TypeMapping(p, canResolve, t).value) == Some(t)
  {
    KeptApply(t, PolicyHandler(p, canResolve));
  }

  /** The same for any handler: the result stands for the type itself. */
  lemma KeptApply(t: CppType, h: Handler)
    requires Keeps(t, h)
    ensures OperateOn(t, h).Ok? && Apply(t, OperateOn(t, h).value) == Some(t)
  {
    KeptTypeUnchanged(t, h);
  }
}
