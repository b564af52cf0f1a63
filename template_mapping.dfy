/** The name-to-type mapping `typedAs` builds when a template is
    instantiated with concrete arguments: each template parameter (and the
    parameters merged into it) is bound, by name and by usr, to the mapped
    argument at its position; parameters past the last argument fall back to
    their default type, run through the instantiation's own type mapper. */
module TemplateMapping {
  import opened Wrappers
  import opened CppTypes

  /** The name and usr of a template parameter. */
  datatype ParamKey = ParamKey(name: string, usr: string)

  /** A `WrappedTemplateParam`: its name, usr, the parameters merged into it
      (`otherParams`) and its default type, if any. */
  datatype TemplateParam = TemplateParam(name: string, usr: string, otherParams: seq<ParamKey>, defaultType: Option<CppType>)

  /** What a type mapper returns: drop the element, leave it, or replace it. */
  datatype MapResult = RemoveElement | ElementUnchanged | ReplaceWith(replacement: CppType)

  function Min(a: nat, b: nat): nat { if a < b then a else b }

  /** The keys an argument binds: the parameter's own name and usr, then those
      of each merged parameter. */
  function ArgKeys(p: TemplateParam): seq<ParamKey> {
    [ParamKey(p.name, p.usr)] + p.otherParams
  }

  /** The names and usrs among `ks`. */
  function KeyTexts(ks: seq<ParamKey>): set<string> {
    if |ks| == 0 then {} else {ks[0].name, ks[0].usr} + KeyTexts(ks[1..])
  }

  /** Binding `t` to every name and usr in `ks`, in order. */
  function BindKeys(m: map<string, CppType>, ks: seq<ParamKey>, t: CppType): (r: map<string, CppType>)
    decreases |ks|
  {
    if |ks| == 0 then m else BindKeys(m[ks[0].name := t][ks[0].usr := t], ks[1..], t)
  }

  /** The mapping after the first `n` arguments, or the failure of the first
      argument the base context cannot map. */
  function ArgPhase(ps: seq<TemplateParam>, args: seq<CppType>, mapArg: CppType -> Option<CppType>, n: nat): Result<map<string, CppType>>
    requires n <= |ps| && n <= |args|
  {
    if n == 0 then Ok(map[])
    else
      var prev := ArgPhase(ps, args, mapArg, n - 1);
      if prev.Fail? then prev
      else
        var mapped := mapArg(args[n - 1]);
        if mapped.None? then Fail(IllegalArgument)
        else Ok(BindKeys(prev.value, ArgKeys(ps[n - 1]), mapped.value))
  }

  /** The mapping after the defaults of parameters `from` up to `n`: a
      parameter without default, or whose default the mapper removes, binds
      nothing; otherwise its name and usr get the replacement, or the default
      itself when the mapper leaves it unchanged. The mapper sees the mapping
      as built so far. */
  function DefaultPhase(ps: seq<TemplateParam>, mapDefault: (map<string, CppType>, CppType) -> MapResult,
                        m: map<string, CppType>, from: nat, n: nat): map<string, CppType>
    requires from <= n <= |ps|
    decreases n
  {
    if n == from then m
    else
      var prev := DefaultPhase(ps, mapDefault, m, from, n - 1);
      var p := ps[n - 1];
      if p.defaultType.None? then prev
      else
        var mapped := mapDefault(prev, p.defaultType.value);
        if mapped.RemoveElement? then prev
        else
          var t := if mapped.ReplaceWith? then mapped.replacement else p.defaultType.value;
          prev[p.name := t][p.usr := t]
  }

  /** The whole mapping `typedAs` builds. */
  function TypedMapping(ps: seq<TemplateParam>, args: seq<CppType>, mapArg: CppType -> Option<CppType>,
                        mapDefault: (map<string, CppType>, CppType) -> MapResult): Result<map<string, CppType>>
  {
    var k := Min(|ps|, |args|);
    var a := ArgPhase(ps, args, mapArg, k);
    if a.Fail? then a else Ok(DefaultPhase(ps, mapDefault, a.value, k, |ps|))
  }

  /** The two loops of `typedAs` that fill the mapping. */
  method BuildMapping(ps: seq<TemplateParam>, args: seq<CppType>, mapArg: CppType -> Option<CppType>,
                      mapDefault: (map<string, CppType>, CppType) -> MapResult)
    returns (r: Result<map<string, CppType>>)
    ensures r == TypedMapping(ps, args, mapArg, mapDefault)
  {
    var k := Min(|ps|, |args|);
    var mapping: map<string, CppType> := map[];
    for i := 0 to k
      invariant ArgPhase(ps, args, mapArg, i) == Ok(mapping)
    {
      var mappedType := mapArg(args[i]);
      if mappedType.None? {
        FailurePersists(ps, args, mapArg, i + 1, k);
        return Fail(IllegalArgument);
      }
      mapping := BindArgument(mapping, ps[i], mappedType.value);
    }
    for i := k to |ps|
      invariant DefaultPhase(ps, mapDefault, ArgPhase(ps, args, mapArg, k).value, k, i) == mapping
    {
      var defaultType := ps[i].defaultType;
      if defaultType.None? {
        continue;
      }
      var mappedType := mapDefault(mapping, defaultType.value);
      if mappedType.RemoveElement? {
        continue;
      }
      var t := if mappedType.ReplaceWith? then mappedType.replacement else defaultType.value;
      mapping := mapping[ps[i].name := t];
      mapping := mapping[ps[i].usr := t];
    }
    r := Ok(mapping);
  }

  /** One argument: its name and usr, then each merged parameter's. */
  method BindArgument(m: map<string, CppType>, p: TemplateParam, t: CppType) returns (r: map<string, CppType>)
    ensures r == BindKeys(m, ArgKeys(p), t)
  {
    r := m[p.name := t];
    r := r[p.usr := t];
    var ks := ArgKeys(p);
    for j := 0 to |p.otherParams|
      invariant r == BindKeys(m, ks[..j + 1], t)
    {
      var extra := p.otherParams[j];
      assert ks[j + 1] == extra;
      BindKeysSnoc(m, ks[..j + 1], extra, t);
      assert ks[..j + 2] == ks[..j + 1] + [extra];
      r := r[extra.name := t];
      r := r[extra.usr := t];
    }
    assert ks[..|p.otherParams| + 1] == ks;
  }

  // ---------------------------------------------------------------------
  // Properties

  lemma {:induction false} BindKeysSnoc(m: map<string, CppType>, ks: seq<ParamKey>, k: ParamKey, t: CppType)
    ensures BindKeys(m, ks + [k], t) == BindKeys(m, ks, t)[k.name := t][k.usr := t]
    decreases |ks|
  {
    if |ks| == 0 {
      assert [k][1..] == [];
    } else {
      assert (ks + [k])[1..] == ks[1..] + [k];
      BindKeysSnoc(m[ks[0].name := t][ks[0].usr := t], ks[1..], k, t);
    }
  }

  /** Every name and usr in `ks` is bound to `t`; nothing else changes. */
  lemma {:induction false} BindKeysAt(m: map<string, CppType>, ks: seq<ParamKey>, t: CppType, x: string)
    ensures x in KeyTexts(ks) ==> x in BindKeys(m, ks, t) && BindKeys(m, ks, t)[x] == t
    ensures x !in KeyTexts(ks) ==> (x in BindKeys(m, ks, t) <==> x in m)
    ensures x !in KeyTexts(ks) && x in m ==> BindKeys(m, ks, t)[x] == m[x]
    decreases |ks|
  {
    if |ks| > 0 {
      BindKeysAt(m[ks[0].name := t][ks[0].usr := t], ks[1..], t, x);
    }
  }

  lemma {:induction false} FailurePersists(ps: seq<TemplateParam>, args: seq<CppType>, mapArg: CppType -> Option<CppType>, i: nat, n: nat)
    requires i <= n <= |ps| && n <= |args|
    requires ArgPhase(ps, args, mapArg, i).Fail?
    ensures ArgPhase(ps, args, mapArg, n) == ArgPhase(ps, args, mapArg, i)
    decreases n
  {
    if n > i {
      FailurePersists(ps, args, mapArg, i, n - 1);
    }
  }

  lemma {:induction false} ArgPhaseFails(ps: seq<TemplateParam>, args: seq<CppType>, mapArg: CppType -> Option<CppType>, n: nat)
    requires n <= |ps| && n <= |args|
    ensures ArgPhase(ps, args, mapArg, n).Fail? <==> exists i :: 0 <= i < n && mapArg(args[i]).None?
    ensures ArgPhase(ps, args, mapArg, n).Fail? ==> ArgPhase(ps, args, mapArg, n).error == IllegalArgument
  {
    if n > 0 {
      ArgPhaseFails(ps, args, mapArg, n - 1);
    }
  }

  /** The mapping fails, with an illegal argument, exactly when one of the
      arguments paired with a parameter cannot be mapped. */
  lemma TypedMappingFails(ps: seq<TemplateParam>, args: seq<CppType>, mapArg: CppType -> Option<CppType>,
                          mapDefault: (map<string, CppType>, CppType) -> MapResult)
    ensures TypedMapping(ps, args, mapArg, mapDefault).Fail? <==>
      exists i :: 0 <= i < |ps| && i < |args| && mapArg(args[i]).None?
    ensures TypedMapping(ps, args, mapArg, mapDefault).Fail? ==>
      TypedMapping(ps, args, mapArg, mapDefault) == Fail(IllegalArgument)
  {
    ArgPhaseFails(ps, args, mapArg, Min(|ps|, |args|));
  }

  /** Parameter `i`'s name and usr belong to no other parameter. */
  predicate OwnKeys(ps: seq<TemplateParam>, i: nat)
    requires i < |ps|
  {
    forall j :: 0 <= j < |ps| && j != i ==>
      ps[i].name !in KeyTexts(ArgKeys(ps[j])) && ps[i].usr !in KeyTexts(ArgKeys(ps[j]))
  }

  lemma KeyTextsArg(p: TemplateParam)
    ensures p.name in KeyTexts(ArgKeys(p)) && p.usr in KeyTexts(ArgKeys(p))
  {
  }

  /** Once bound by the argument phase, a key of parameter `i` that no later
      parameter binds keeps its value. */
  lemma {:induction false} ArgPhaseKeeps(ps: seq<TemplateParam>, args: seq<CppType>, mapArg: CppType -> Option<CppType>,
                                         i: nat, n: nat, x: string)
    requires i < n <= |ps| && n <= |args|
    requires ArgPhase(ps, args, mapArg, n).Ok?
    requires x in KeyTexts(ArgKeys(ps[i]))
    requires forall j :: i < j < n ==> x !in KeyTexts(ArgKeys(ps[j]))
    ensures ArgPhase(ps, args, mapArg, i + 1).Ok?
    ensures x in ArgPhase(ps, args, mapArg, n).value && ArgPhase(ps, args, mapArg, n).value[x] == mapArg(args[i]).value
    decreases n
  {
    if ArgPhase(ps, args, mapArg, n - 1).Fail? {
      assert false;
    }
    var prev := ArgPhase(ps, args, mapArg, n - 1).value;
    var t := mapArg(args[n - 1]).value;
    BindKeysAt(prev, ArgKeys(ps[n - 1]), t, x);
    if n - 1 > i {
      ArgPhaseKeeps(ps, args, mapArg, i, n - 1, x);
    }
  }

  /** The default phase only writes the names and usrs of the parameters it
      visits. */
  lemma {:induction false} DefaultPhaseKeeps(ps: seq<TemplateParam>, mapDefault: (map<string, CppType>, CppType) -> MapResult,
                                             m: map<string, CppType>, from: nat, n: nat, x: string)
    requires from <= n <= |ps|
    requires x in m
    requires forall j :: from <= j < n ==> x != ps[j].name && x != ps[j].usr
    ensures x in DefaultPhase(ps, mapDefault, m, from, n) && DefaultPhase(ps, mapDefault, m, from, n)[x] == m[x]
    decreases n
  {
    if n > from {
      DefaultPhaseKeeps(ps, mapDefault, m, from, n - 1, x);
    }
  }

  /** For each position `i` below both the parameter and the argument
      counts, the name and the usr of parameter `i` map to argument `i` as
      the base context maps it, when no other parameter uses them. */
  lemma ArgumentBound(ps: seq<TemplateParam>, args: seq<CppType>, mapArg: CppType -> Option<CppType>,
                      mapDefault: (map<string, CppType>, CppType) -> MapResult, i: nat)
    requires i < |ps| && i < |args| && OwnKeys(ps, i)
    requires TypedMapping(ps, args, mapArg, mapDefault).Ok?
    ensures mapArg(args[i]).Some?
    ensures var m := TypedMapping(ps, args, mapArg, mapDefault).value;
      ps[i].name in m && m[ps[i].name] == mapArg(args[i]).value &&
      ps[i].usr in m && m[ps[i].usr] == mapArg(args[i]).value
  {
    var k := Min(|ps|, |args|);
    KeyTextsArg(ps[i]);
    ArgPhaseKeeps(ps, args, mapArg, i, k, ps[i].name);
    ArgPhaseKeeps(ps, args, mapArg, i, k, ps[i].usr);
    var a := ArgPhase(ps, args, mapArg, k).value;
    forall j | k <= j < |ps|
      ensures ps[i].name != ps[j].name && ps[i].name != ps[j].usr
      ensures ps[i].usr != ps[j].name && ps[i].usr != ps[j].usr
    {
      KeyTextsArg(ps[j]);
    }
    DefaultPhaseKeeps(ps, mapDefault, a, k, |ps|, ps[i].name);
    DefaultPhaseKeeps(ps, mapDefault, a, k, |ps|, ps[i].usr);
    assert ArgPhase(ps, args, mapArg, i + 1).Ok?;
  }

  /** Every key of the mapping is a name or usr of one of the first `n`
      parameters. */
  predicate KeysFromParams(m: map<string, CppType>, ps: seq<TemplateParam>, n: nat)
    requires n <= |ps|
  {
    forall x :: x in m ==> exists j :: 0 <= j < n && x in KeyTexts(ArgKeys(ps[j]))
  }

  lemma {:induction false} ArgPhaseDomain(ps: seq<TemplateParam>, args: seq<CppType>, mapArg: CppType -> Option<CppType>, n: nat)
    requires n <= |ps| && n <= |args|
    requires ArgPhase(ps, args, mapArg, n).Ok?
    ensures KeysFromParams(ArgPhase(ps, args, mapArg, n).value, ps, n)
  {
    if n > 0 {
      ArgPhaseDomain(ps, args, mapArg, n - 1);
      var prev := ArgPhase(ps, args, mapArg, n - 1).value;
      var t := mapArg(args[n - 1]).value;
      forall x | x in ArgPhase(ps, args, mapArg, n).value
        ensures exists j :: 0 <= j < n && x in KeyTexts(ArgKeys(ps[j]))
      {
        BindKeysAt(prev, ArgKeys(ps[n - 1]), t, x);
      }
    }
  }

  lemma {:induction false} DefaultPhaseDomain(ps: seq<TemplateParam>, mapDefault: (map<string, CppType>, CppType) -> MapResult,
                                              m: map<string, CppType>, from: nat, n: nat)
    requires from <= n <= |ps|
    requires KeysFromParams(m, ps, from)
    ensures KeysFromParams(DefaultPhase(ps, mapDefault, m, from, n), ps, n)
    decreases n
  {
    if n > from {
      DefaultPhaseDomain(ps, mapDefault, m, from, n - 1);
      KeyTextsArg(ps[n - 1]);
    }
  }

  /** Nothing but parameter names and usrs is ever bound. */
  lemma MappingKeys(ps: seq<TemplateParam>, args: seq<CppType>, mapArg: CppType -> Option<CppType>,
                    mapDefault: (map<string, CppType>, CppType) -> MapResult)
    requires TypedMapping(ps, args, mapArg, mapDefault).Ok?
    ensures KeysFromParams(TypedMapping(ps, args, mapArg, mapDefault).value, ps, |ps|)
  {
    var k := Min(|ps|, |args|);
    ArgPhaseDomain(ps, args, mapArg, k);
    DefaultPhaseDomain(ps, mapDefault, ArgPhase(ps, args, mapArg, k).value, k, |ps|);
  }

  /** A parameter past the last argument that has no default, and whose
      name no other parameter uses, stays unbound. */
  lemma MissingDefaultUnbound(ps: seq<TemplateParam>, args: seq<CppType>, mapArg: CppType -> Option<CppType>,
                              mapDefault: (map<string, CppType>, CppType) -> MapResult, i: nat)
    requires |args| <= i < |ps| && OwnKeys(ps, i) && ps[i].defaultType.None?
    requires TypedMapping(ps, args, mapArg, mapDefault).Ok?
    ensures ps[i].name !in TypedMapping(ps, args, mapArg, mapDefault).value
  {
    var k := Min(|ps|, |args|);
    var a := ArgPhase(ps, args, mapArg, k).value;
    ArgPhaseDomain(ps, args, mapArg, k);
    forall j | 0 <= j < k
      ensures ps[i].name !in KeyTexts(ArgKeys(ps[j]))
    {
    }
    assert ps[i].name !in a;
    DefaultPhaseMisses(ps, mapDefault, a, k, |ps|, i);
  }

  lemma {:induction false} DefaultPhaseMisses(ps: seq<TemplateParam>, mapDefault: (map<string, CppType>, CppType) -> MapResult,
                                              m: map<string, CppType>, from: nat, n: nat, i: nat)
    requires from <= n <= |ps| && i < |ps| && OwnKeys(ps, i) && ps[i].defaultType.None?
    requires ps[i].name !in m
    ensures ps[i].name !in DefaultPhase(ps, mapDefault, m, from, n)
    decreases n
  {
    if n > from {
      DefaultPhaseMisses(ps, mapDefault, m, from, n - 1, i);
      if n - 1 != i {
        KeyTextsArg(ps[n - 1]);
      }
    }
  }
}
