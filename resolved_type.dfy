/** The Kotlin side of a resolved type (`ResolvedKotlinType` in
    `ResolvedType.kt`): a dot-separated qualified name, whether the type is
    a generated wrapper class, its template arguments, whether it is
    nullable, and the display renaming set by `setNameRemap`. */
module ResolvedTypes {
  import opened Wrappers
  import opened Text
  import KotlinTypes

  datatype ResolvedKotlinType = ResolvedKotlinType(
    qualifyList: seq<string>,
    isWrapper: bool,
    templates: seq<ResolvedKotlinType>,
    isNullable: bool,
    /** The map given to `setNameRemap`, `None` before any. */
    remap: Option<map<string, string>>)

  /** Every qualified name, here and in the template arguments, has a last
      segment (`qualifyList.last()` fails on an empty list). */
  predicate WellFormed(t: ResolvedKotlinType)
    decreases t
  {
    |t.qualifyList| >= 1 && forall i :: 0 <= i < |t.templates| ==> WellFormed(t.templates[i])
  }

  function LastSegment(t: ResolvedKotlinType): string
    requires |t.qualifyList| >= 1
  {
    t.qualifyList[|t.qualifyList| - 1]
  }

  function DecapitalizeAll(parts: seq<string>): (r: seq<string>)
    ensures |r| == |parts|
    ensures forall i :: 0 <= i < |parts| ==> r[i] == Decapitalize(parts[i])
  {
    if |parts| == 0 then [] else [Decapitalize(parts[0])] + DecapitalizeAll(parts[1..])
  }

  /** `fullyQualified`: the segments joined with `.`, each one but the last
      with its first character lowered. */
  function FullyQualified(t: ResolvedKotlinType): (r: string)
    requires |t.qualifyList| >= 1
    ensures |t.qualifyList| == 1 ==> r == LastSegment(t)
    ensures |t.qualifyList| > 1 ==> r == Pkg(t) + "." + LastSegment(t)
  {
    var q := t.qualifyList;
    var parts := DecapitalizeAll(q[..|q| - 1]) + [q[|q| - 1]];
    if |q| > 1 then
      assert parts[..|parts| - 1] == DecapitalizeAll(q[..|q| - 1]);
      KotlinTypes.JoinSnoc(parts, ".");
      Join(parts, ".")
    else
      Join(parts, ".")
  }

  /** `pkg`: the segments before the last, lowered the same way. */
  function Pkg(t: ResolvedKotlinType): (r: string)
    requires |t.qualifyList| >= 1
    ensures |t.qualifyList| == 1 ==> r == ""
  {
    var q := t.qualifyList;
    Join(DecapitalizeAll(q[..|q| - 1]), ".")
  }

  /** `mappedName`: the remapped name of the fully qualified name if the
      remap has one, the last segment otherwise. */
  function MappedName(t: ResolvedKotlinType): string
    requires |t.qualifyList| >= 1
  {
    var fq := FullyQualified(t);
    if t.remap.Some? && fq in t.remap.value then t.remap.value[fq] else LastSegment(t)
  }

  /** `name`: the mapped name, `<a, b>` when there are template arguments,
      and `?` when nullable. */
  function Name(t: ResolvedKotlinType): (r: string)
    requires WellFormed(t)
    decreases t
    ensures StartsWith(r, MappedName(t))
    ensures t.isNullable ==> EndsWith(r, "?")
  {
    var suffix := if t.isNullable then "?" else "";
    if |t.templates| > 0 then
      var names := seq(|t.templates|, i requires 0 <= i < |t.templates| => Name(t.templates[i]));
      MappedName(t) + "<" + Join(names, ", ") + ">" + suffix
    else MappedName(t) + suffix
  }

  /** `fqNames`: this type's fully qualified name, then those of the template
      arguments in order. */
  function FqNames(t: ResolvedKotlinType): (r: seq<string>)
    requires WellFormed(t)
    decreases t
    ensures |r| >= 1 && r[0] == FullyQualified(t)
  {
    var nested := seq(|t.templates|, i requires 0 <= i < |t.templates| => FqNames(t.templates[i]));
    [FullyQualified(t)] + Flatten(nested)
  }

  function Flatten(parts: seq<seq<string>>): seq<string> {
    if |parts| == 0 then [] else parts[0] + Flatten(parts[1..])
  }

  /** `nullable(base)`. */
  function Nullable(base: ResolvedKotlinType): (r: ResolvedKotlinType)
    ensures r.isNullable && r.remap.None?
    ensures r.qualifyList == base.qualifyList && r.isWrapper == base.isWrapper && r.templates == base.templates
    ensures WellFormed(base) ==> WellFormed(r) && EndsWith(Name(r), "?")
  {
    base.(isNullable := true, remap := None)
  }

  /** `typedWith(types)`. */
  function TypedWith(base: ResolvedKotlinType, types: seq<ResolvedKotlinType>): (r: ResolvedKotlinType)
    ensures r.templates == types && r.remap.None?
    ensures r.qualifyList == base.qualifyList && r.isWrapper == base.isWrapper && r.isNullable == base.isNullable
    ensures WellFormed(base) && (forall i :: 0 <= i < |types| ==> WellFormed(types[i])) ==>
      WellFormed(r) && FqNames(r)[0] == FullyQualified(base)
  {
    base.(templates := types, remap := None)
  }

  /** `fullyQualifiedType(name, isWrapper)`: a trailing `?` is dropped and
      makes the type nullable; a wrapper is always nullable. */
  function FullyQualifiedType(name: string, isWrapper: bool): (r: ResolvedKotlinType)
    ensures WellFormed(r) && r.templates == [] && r.remap.None? && r.isWrapper == isWrapper
    ensures r.isNullable <==> isWrapper || EndsWith(name, "?")
    ensures Join(r.qualifyList, ".") == TrimEndChar(name, '?')
    ensures forall i :: 0 <= i < |r.qualifyList| ==> '.' !in r.qualifyList[i]
  {
    ResolvedKotlinType(Split(TrimEndChar(name, '?'), '.'), isWrapper, [], isWrapper || EndsWith(name, "?"), None)
  }

  /** `setNameRemap(map)`: stores the map here and in every template
      argument, recursively. */
  function SetNameRemap(t: ResolvedKotlinType, m: map<string, string>): (r: ResolvedKotlinType)
    decreases t
    ensures r.qualifyList == t.qualifyList && r.isWrapper == t.isWrapper && r.isNullable == t.isNullable
    ensures r.remap == Some(m) && |r.templates| == |t.templates|
    ensures WellFormed(t) ==> WellFormed(r)
  {
    var remapped := seq(|t.templates|, i requires 0 <= i < |t.templates| => SetNameRemap(t.templates[i], m));
    ResolvedKotlinType(t.qualifyList, t.isWrapper, remapped, t.isNullable, Some(m))
  }

  /** `cloneWithoutChildren`: a data-class copy, so the remap (a property
      outside the constructor) is not carried over. */
  function Clone(t: ResolvedKotlinType): (r: ResolvedKotlinType)
    decreases t
    ensures r.qualifyList == t.qualifyList && r.isWrapper == t.isWrapper && r.isNullable == t.isNullable
    ensures r.remap.None? && |r.templates| == |t.templates|
    ensures WellFormed(t) ==> WellFormed(r)
  {
    var cloned := seq(|t.templates|, i requires 0 <= i < |t.templates| => Clone(t.templates[i]));
    ResolvedKotlinType(t.qualifyList, t.isWrapper, cloned, t.isNullable, None)
  }

  // ---------------------------------------------------------------------
  // Properties

  /** Splitting `a.rest` where `a` has no `.` gives `a`, then the pieces of `rest`. */
  lemma {:induction false} SplitAfter(a: string, sep: char, rest: string)
    requires sep !in a
    ensures Split(a + [sep] + rest, sep) == [a] + Split(rest, sep)
    decreases |a|
  {
    var s := a + [sep] + rest;
    if |a| == 0 {
      assert s[1..] == rest;
    } else {
      SplitAfter(a[1..], sep, rest);
      assert s[1..] == a[1..] + [sep] + rest;
      assert [a[0]] + a[1..] == a;
    }
  }

  /** `fullyQualifiedType("Ns.Cls")` for a one-level package: the segments
      are the package and the class, and the package's first letter is
      lowered in the fully qualified name. */
  lemma QualifiedTwoSegments(ns: string, cls: string, isWrapper: bool)
    requires '.' !in ns && '.' !in cls && |cls| > 0 && cls[|cls| - 1] != '?'
    ensures var t := FullyQualifiedType(ns + "." + cls, isWrapper);
      && t.qualifyList == [ns, cls]
      && FullyQualified(t) == Decapitalize(ns) + "." + cls
      && Pkg(t) == Decapitalize(ns)
      && Name(t) == cls + (if isWrapper then "?" else "")
  {
    var t := FullyQualifiedType(ns + "." + cls, isWrapper);
    TwoSegmentsSplit(ns, cls, isWrapper);
    TwoSegmentNames(t, ns, cls);
  }

  lemma TwoSegmentsSplit(ns: string, cls: string, isWrapper: bool)
    requires '.' !in ns && '.' !in cls && |cls| > 0 && cls[|cls| - 1] != '?'
    ensures var t := FullyQualifiedType(ns + "." + cls, isWrapper);
      t.qualifyList == [ns, cls] && t.isNullable == isWrapper
  {
    var full := ns + "." + cls;
    assert TrimEndChar(full, '?') == full;
    SplitAfter(ns, '.', cls);
    KotlinTypes.SplitWithoutSeparator(cls, '.');
    assert full == ns + ['.'] + cls;
    assert !EndsWith(full, "?") by {
      assert full[|full| - 1] == cls[|cls| - 1];
    }
  }

  lemma TwoSegmentNames(t: ResolvedKotlinType, ns: string, cls: string)
    requires t.qualifyList == [ns, cls] && t.templates == [] && t.remap.None?
    ensures FullyQualified(t) == Decapitalize(ns) + "." + cls
    ensures Pkg(t) == Decapitalize(ns)
    ensures Name(t) == cls + (if t.isNullable then "?" else "")
  {
    assert t.qualifyList[..1] == [ns];
    assert DecapitalizeAll([ns]) + [cls] == [Decapitalize(ns), cls];
    assert Join([Decapitalize(ns), cls], ".") == Decapitalize(ns) + "." + cls;
  }

  lemma DecapitalizeTestLib()
    ensures Decapitalize("TestLib") == "testLib"
  {
    assert LowerChar('T') == 't';
  }

  /** `TestLib.EmptyClass` becomes `testLib.EmptyClass`, in package `testLib`. */
  lemma TestLibExample()
    ensures var t := FullyQualifiedType("TestLib" + "." + "EmptyClass", true);
      && FullyQualified(t) == "testLib" + "." + "EmptyClass"
      && Pkg(t) == "testLib"
      && Name(t) == "EmptyClass" + "?"
  {
    QualifiedTwoSegments("TestLib", "EmptyClass", true);
    DecapitalizeTestLib();
  }

  /** Segments already starting with a lower-case letter (or none). */
  predicate PackageLowered(parts: seq<string>) {
    forall i :: 0 <= i < |parts| - 1 ==> Decapitalize(parts[i]) == parts[i]
  }

  /** Lowering segments that are already lowered changes nothing. */
  lemma InitLowered(q: seq<string>)
    requires |q| >= 1 && PackageLowered(q)
    ensures DecapitalizeAll(q[..|q| - 1]) == q[..|q| - 1]
  {
    var init := q[..|q| - 1];
    forall i | 0 <= i < |init|
      ensures DecapitalizeAll(init)[i] == init[i]
    {
      assert init[i] == q[i];
    }
  }

  /** `fullyQualifiedType` and `fullyQualified` are inverse for a name
      whose package segments are already lowered: only the `?` is lost. */
  lemma FullyQualifiedRoundTrip(name: string, isWrapper: bool)
    requires PackageLowered(Split(TrimEndChar(name, '?'), '.'))
    ensures FullyQualified(FullyQualifiedType(name, isWrapper)) == TrimEndChar(name, '?')
  {
    var r := FullyQualifiedType(name, isWrapper);
    FullyQualifiedLowered(r);
  }

  /** Lowering already lowered package segments leaves the joined name. */
  lemma FullyQualifiedLowered(t: ResolvedKotlinType)
    requires |t.qualifyList| >= 1 && PackageLowered(t.qualifyList)
    ensures FullyQualified(t) == Join(t.qualifyList, ".")
  {
    var q := t.qualifyList;
    InitLowered(q);
    assert q[..|q| - 1] + [q[|q| - 1]] == q;
  }

  /** After `nullable` the type shows its last segment; for a type without
      a remap the name gains a `?`, and the qualified name and package
      stay. */
  lemma NullableName(t: ResolvedKotlinType)
    requires WellFormed(t) && !t.isNullable
    ensures MappedName(Nullable(t)) == LastSegment(t)
    ensures t.remap.None? ==> Name(Nullable(t)) == Name(t) + "?"
    ensures FullyQualified(Nullable(t)) == FullyQualified(t) && Pkg(Nullable(t)) == Pkg(t)
  {
  }

  /** A name ends in `?` exactly when the type is nullable. */
  lemma NullableSuffix(t: ResolvedKotlinType)
    requires WellFormed(t)
    requires |t.templates| > 0 || !EndsWith(MappedName(t), "?")
    ensures EndsWith(Name(t), "?") <==> t.isNullable
  {
    var n := Name(t);
    if !t.isNullable && |t.templates| > 0 {
      assert n[|n| - 1] == '>';
    }
  }

  /** A name shows `<` exactly when there are template arguments. */
  lemma TemplateBrackets(t: ResolvedKotlinType)
    requires WellFormed(t) && '<' !in MappedName(t)
    ensures '<' in Name(t) <==> |t.templates| > 0
  {
    if |t.templates| > 0 {
      assert Name(t)[|MappedName(t)|] == '<';
    }
  }

  /** `typedWith`, a data-class copy too, keeps the qualified name, shows
      the last segment (the remap is not copied) and puts the argument
      names, comma separated, in angle brackets. */
  lemma TypedWithName(base: ResolvedKotlinType, arg: ResolvedKotlinType)
    requires WellFormed(base) && WellFormed(arg) && !base.isNullable
    ensures FullyQualified(TypedWith(base, [arg])) == FullyQualified(base)
    ensures Name(TypedWith(base, [arg])) == LastSegment(base) + "<" + Name(arg) + ">"
  {
    var t := TypedWith(base, [arg]);
    SameSegments(t, base);
    assert WellFormed(t);
    assert MappedName(t) == LastSegment(base);
    NameOneTemplate(t);
  }

  /** The names derived from the segments depend on the segments alone. */
  lemma SameSegments(a: ResolvedKotlinType, b: ResolvedKotlinType)
    requires |a.qualifyList| >= 1 && a.qualifyList == b.qualifyList
    ensures FullyQualified(a) == FullyQualified(b) && Pkg(a) == Pkg(b) && LastSegment(a) == LastSegment(b)
  {
  }

  lemma NameOneTemplate(t: ResolvedKotlinType)
    requires WellFormed(t) && |t.templates| == 1 && !t.isNullable
    ensures Name(t) == MappedName(t) + "<" + Name(t.templates[0]) + ">"
  {
    var names := seq(1, i requires 0 <= i < 1 => Name(t.templates[i]));
    assert names == [Name(t.templates[0])];
    assert Join(names, ", ") == Name(t.templates[0]);
  }

  /** The remap replaces the displayed last segment when it names this
      type's fully qualified name. */
  lemma RemapListed(t: ResolvedKotlinType, m: map<string, string>)
    requires WellFormed(t) && FullyQualified(t) in m
    ensures StartsWith(Name(SetNameRemap(t, m)), m[FullyQualified(t)])
  {
    var r := SetNameRemap(t, m);
    assert FullyQualified(r) == FullyQualified(t);
    assert MappedName(r) == m[FullyQualified(t)];
  }

  /** No fully qualified name of the tree is in the map. */
  predicate Unlisted(t: ResolvedKotlinType, m: map<string, string>)
    requires WellFormed(t)
    decreases t
  {
    FullyQualified(t) !in m && forall i :: 0 <= i < |t.templates| ==> Unlisted(t.templates[i], m)
  }

  /** A remap that lists none of the tree's names shows the names a fresh
      clone shows, whatever remaps the tree already carried. */
  lemma {:induction false} RemapUnlisted(t: ResolvedKotlinType, m: map<string, string>)
    requires WellFormed(t) && Unlisted(t, m)
    ensures Name(SetNameRemap(t, m)) == Name(Clone(t))
    decreases t
  {
    var r := SetNameRemap(t, m);
    var c := Clone(t);
    assert MappedName(r) == LastSegment(t) == MappedName(c);
    forall i | 0 <= i < |t.templates|
      ensures Name(r.templates[i]) == Name(c.templates[i])
    {
      RemapUnlisted(t.templates[i], m);
    }
    var rn := seq(|r.templates|, i requires 0 <= i < |r.templates| => Name(r.templates[i]));
    var cn := seq(|c.templates|, i requires 0 <= i < |c.templates| => Name(c.templates[i]));
    assert rn == cn;
  }

  /** A clone forgets the remap: cloning a remapped type is cloning the
      type itself. */
  lemma {:induction false} CloneForgetsRemap(t: ResolvedKotlinType, m: map<string, string>)
    ensures Clone(SetNameRemap(t, m)) == Clone(t)
    decreases t
  {
    var a := Clone(SetNameRemap(t, m));
    var b := Clone(t);
    forall i | 0 <= i < |t.templates|
      ensures a.templates[i] == b.templates[i]
    {
      CloneForgetsRemap(t.templates[i], m);
    }
    assert a.templates == b.templates;
  }
}
