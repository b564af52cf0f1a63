/** The state the resolver keeps while it works: the cache of type
    mappings of a `ResolveContext` and the `ResolveTracker` that decides
    which classes can be resolved. */
module ResolveState {
  import opened Wrappers
  import opened CppTypes
  import opened TypeResolver

  /** `map(type)` as a function of the mapping: an array is never mapped;
      otherwise the mapping's result stands for the new type (none when
      the type is removed), and a thrown exception comes through. */
  function MapSpec(mapping: Handler, t: CppType): (r: Result<Option<CppType>>)
    ensures IsArray(t) ==> r == Ok(None)
    ensures !IsArray(t) && mapping(t).Fail? ==> r.Fail?
    ensures !IsArray(t) && mapping(t) == Ok(ElementUnchanged) ==> r == Ok(Some(t))
    ensures !IsArray(t) && mapping(t) == Ok(RemoveElement) ==> r == Ok(None)
  {
    if IsArray(t) then Ok(None)
    else
      var m := mapping(t);
      if m.Fail? then Fail(m.error) else Ok(Apply(t, m.value))
  }

  /** Under a reference policy, a type that is not an array and whose parts
      all resolve maps to itself. */
  lemma MapResolvable(p: Policy, canResolve: CppType -> bool, t: CppType)
    requires !IsArray(t) && Keeps(t, PolicyHandler(p, canResolve))
    ensures MapSpec(x => TypeMapping(p, canResolve, x), t) == Ok(Some(t))
  {
    ResolvableUnchanged(p, canResolve, t);
  }

  /** The unresolvable marker is not a native name. */
  lemma UnresolvableNotNative()
    ensures !IsNative(UNRESOLVABLE)
  {
    var n := UNRESOLVABLE.name;
    assert !RefIsConst(n) by { assert n[0] != 'c'; }
    assert !RefIsArray(n) by { assert n[|n| - 1] != ']'; }
    assert n != STRING by { assert n[0] != STRING[0]; }
    assert forall i :: 0 <= i < |NATIVE| ==> NATIVE[i] != n by {
      assert forall i :: 0 <= i < |NATIVE| ==> |NATIVE[i]| != |n| || NATIVE[i][2] != n[2];
    }
  }

  /** The mapping side of `ResolveContext`: the mapping itself is fixed, the
      cache fills as types are mapped. */
  class ResolveContext {
    const typeMapping: Handler
    var mappingCache: map<CppType, MapResult>

    /** Every cached result is what the mapping gives for its type. */
    ghost predicate Valid()
      reads this
    {
      forall t :: t in mappingCache ==> typeMapping(t) == Ok(mappingCache[t])
    }

    constructor (mapping: Handler)
      ensures typeMapping == mapping && mappingCache == map[]
      ensures Valid()
    {
      typeMapping := mapping;
      mappingCache := map[];
    }

    /** `map`: arrays are not mapped; otherwise the cached result is used,
        or the mapping is asked and its result stored (a mapping that
        throws stores nothing). The cache never changes the answer. */
    method Map(t: CppType) returns (r: Result<Option<CppType>>)
      requires Valid()
      modifies this
      ensures Valid()
      ensures r == MapSpec(typeMapping, t)
      ensures IsArray(t) || t in old(mappingCache) || typeMapping(t).Fail? ==>
        mappingCache == old(mappingCache)
      ensures !IsArray(t) && t !in old(mappingCache) && typeMapping(t).Ok? ==>
        mappingCache == old(mappingCache)[t := typeMapping(t).value]
    {
      if IsArray(t) {
        return Ok(None);
      }
      var result: MapResult;
      if t in mappingCache {
        result := mappingCache[t];
      } else {
        var m := typeMapping(t);
        if m.Fail? {
          return Fail(m.error);
        }
        result := m.value;
        mappingCache := mappingCache[t := result];
      }
      match result
      case RemoveElement => r := Ok(None);
      case ElementUnchanged => r := Ok(Some(t));
      case ReplaceWith(x) => r := Ok(Some(x));
    }
  }

  /** `ResolveTracker`. A wrapped class is known here only by whether it is
      empty (`classes`), a resolved class likewise (`resolvedClasses`);
      `otherResolved` holds the names being resolved right now. */
  class ResolveTracker {
    var classes: map<string, bool>
    var resolvedClasses: map<string, bool>
    var otherResolved: set<string>

    constructor (wrapped: map<string, bool>)
      ensures classes == wrapped && resolvedClasses == map[] && otherResolved == {}
    {
      classes := wrapped;
      resolvedClasses := map[];
      otherResolved := {};
    }

    /** `canResolve(str)`. A resolved class answers by being non-empty; a
        name under resolution resolves; an unknown or empty class does not;
        otherwise the class is resolved (`resolveClass`: `None` when that
        fails, else whether the result is non-empty) with its name marked
        as under resolution, and the result is recorded. */
    method CanResolveName(str: string, resolveClass: string -> Option<bool>) returns (b: bool)
      modifies this
      ensures classes == old(classes) && otherResolved == old(otherResolved)
      ensures str in old(resolvedClasses) ==>
        b == old(resolvedClasses)[str] && resolvedClasses == old(resolvedClasses)
      ensures str !in old(resolvedClasses) && str in otherResolved ==>
        b && resolvedClasses == old(resolvedClasses)
      ensures str !in old(resolvedClasses) && str !in otherResolved && (str !in classes || !classes[str]) ==>
        !b && resolvedClasses == old(resolvedClasses)
      ensures str !in old(resolvedClasses) && str !in otherResolved && str in classes && classes[str] ==>
        if resolveClass(str).None? then !b && resolvedClasses == old(resolvedClasses)
        else b == resolveClass(str).value && resolvedClasses == old(resolvedClasses)[str := b]
      ensures str in resolvedClasses ==> b == resolvedClasses[str]
    {
      if str in resolvedClasses {
        return resolvedClasses[str];
      }
      if str in otherResolved {
        return true;
      }
      if str !in classes {
        return false;
      }
      if classes[str] {
        otherResolved := otherResolved + {str};
        var resolved := resolveClass(str);
        if resolved.None? {
          b := false;
        } else {
          resolvedClasses := resolvedClasses[str := resolved.value];
          b := resolved.value;
        }
        otherResolved := otherResolved - {str};
      } else {
        b := false;
      }
    }

    /** `canResolve(type)`: the unresolvable marker never resolves; a name
        under resolution does; a modified type resolves when its base does;
        native types, `void` and `long double` always do; anything else
        resolves when the class of its name (without `const`) does.
        Answers already recorded never change. */
    method CanResolve(t: CppType, resolveClass: string -> Option<bool>) returns (b: bool)
      modifies this
      decreases Weight(t)
      ensures classes == old(classes) && otherResolved == old(otherResolved)
      ensures forall k :: k in old(resolvedClasses) ==>
        k in resolvedClasses && resolvedClasses[k] == old(resolvedClasses)[k]
      ensures t == UNRESOLVABLE ==> !b
      ensures t != UNRESOLVABLE && ToString(t) in otherResolved ==> b
      ensures t != UNRESOLVABLE && (IsNative(t) || IsVoid(t) || t == LONG_DOUBLE) ==> b
    {
      if t == UNRESOLVABLE {
        return false;
      }
      if ToString(t) in otherResolved {
        return true;
      }
      if t.Modified? {
        b := CanResolve(t.base, resolveClass);
        UnresolvableNotNative();
      } else if IsNative(t) || IsVoid(t) || t == LONG_DOUBLE {
        return true;
      } else if t.Ref? {
        b := CanResolveName(RefUnconst(t.name), resolveClass);
      } else {
        b := CanResolveName(ToString(t), resolveClass);
      }
    }
  }
}
