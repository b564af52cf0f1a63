/** Reading a C++ type from its spelling, with the process-wide cache of
    type references the generator keeps. */
module CppTypeParse {
  import opened Wrappers
  import opened Text
  import opened CppTypes

  const TYPENAME_PREFIX: string := "typename "

  /** `WrappedType(type: String)`: a leading "const " becomes a const prefix,
      a trailing `*` or `&` a pointer or reference to the trimmed rest, an
      empty spelling fails, anything else is a reference by name. */
  function Parse(s: string): (r: Result<CppType>)
    decreases |s|
    ensures r.Fail? ==> r == Fail(IllegalArgument)
    ensures |s| == 0 ==> r.Fail?
    ensures r.Ok? && StartsWith(s, CONST_PREFIX) ==> IsConst(r.value)
  {
    if s == "void" then Ok(VOID)
    else if s == "std::size_t" then Parse("size_t")
    else if StartsWith(s, CONST_PREFIX) then
      var inner := Parse(s[|CONST_PREFIX|..]);
      if inner.Ok? then Ok(Const(inner.value)) else inner
    else if StartsWith(s, TYPENAME_PREFIX) then Ok(Typename(s[|TYPENAME_PREFIX|..]))
    else if EndsWith(s, "*") then
      var inner := Parse(Trim(s[..|s| - 1]));
      if inner.Ok? then Ok(PointerTo(inner.value)) else inner
    else if EndsWith(s, "&") then
      var inner := Parse(Trim(s[..|s| - 1]));
      if inner.Ok? then Ok(ReferenceTo(inner.value)) else inner
    else if |s| == 0 then Fail(IllegalArgument)
    else Ok(Ref(s))
  }

  lemma ParseExamples()
    ensures Parse("void") == Ok(VOID)
    ensures Parse("std::size_t") == Parse("size_t") == Ok(Ref("size_t"))
    ensures Parse("") == Fail(IllegalArgument)
  {
    assert |TYPENAME_PREFIX| == 9;
    assert "size_t"[..|CONST_PREFIX|][0] != CONST_PREFIX[0];
    assert !EndsWith("size_t", "*") && !EndsWith("size_t", "&");
  }

  /** A name the parser reads back as itself. */
  predicate PlainName(n: string) {
    |n| > 0 && !IsWhitespace(n[0]) && !IsWhitespace(n[|n| - 1])
    && !StartsWith(n, CONST_PREFIX) && !StartsWith(n, TYPENAME_PREFIX)
    && !EndsWith(n, "*") && !EndsWith(n, "&") && n != "std::size_t"
  }

  /** Names under any number of pointer and reference modifiers. */
  predicate Plain(t: CppType) {
    match t
    case Ref(n) => PlainName(n)
    case Modified(b, m) => (m == "*" || m == "&") && Plain(b)
    case _ => false
  }

  /** The types the parser produces from their own spelling: a plain type,
      optionally under one outer const. */
  predicate Canonical(t: CppType) {
    Plain(t) || (t.Prefixed? && t.prefix == "const" && Plain(t.base))
  }

  lemma TrimIdentity(s: string)
    requires |s| > 0 && !IsWhitespace(s[0]) && !IsWhitespace(s[|s| - 1])
    ensures Trim(s) == s
  {
  }

  lemma {:induction false} PlainNotConst(t: CppType)
    requires Plain(t)
    ensures !IsConst(t)
  {
    match t
    case Ref(n) =>
    case Modified(b, m) => PlainNotConst(b);
  }

  /** The spelling of a plain type is itself a plain name, apart from the
      trailing modifiers it may end with. */
  lemma {:induction false} PlainSpelling(t: CppType)
    requires Plain(t)
    ensures var s := ToString(t);
      |s| > 0 && !IsWhitespace(s[0]) && !IsWhitespace(s[|s| - 1])
      && !StartsWith(s, CONST_PREFIX) && !StartsWith(s, TYPENAME_PREFIX)
      && s != "std::size_t" && (s == "void" ==> t == VOID)
  {
    match t
    case Ref(n) =>
    case Modified(b, m) =>
      PlainSpelling(b);
      var sb := ToString(b);
      var s := sb + m;
      assert s[0] == sb[0];
      AppendNoPrefix(sb, m, CONST_PREFIX);
      AppendNoPrefix(sb, m, TYPENAME_PREFIX);
      assert s[|s| - 1] == m[0];
  }

  /** Appending a character the prefix lacks cannot create the prefix. */
  lemma AppendNoPrefix(sb: string, m: string, p: string)
    requires |m| == 1 && m[0] !in p && !StartsWith(sb, p)
    ensures !StartsWith(sb + m, p)
  {
    var s := sb + m;
    if |sb| >= |p| {
      assert s[..|p|] == sb[..|p|];
    } else if |p| <= |s| {
      assert s[|sb|] == m[0];
      assert s[..|p|][|sb|] == m[0];
    }
  }

  /** Spelling a plain type and parsing it back gives the same type. */
  lemma {:induction false} ParsePlain(t: CppType)
    requires Plain(t)
    ensures Parse(ToString(t)) == Ok(t)
  {
    PlainSpelling(t);
    match t
    case Ref(n) =>
    case Modified(b, m) =>
      var s := ToString(t);
      PlainSpelling(b);
      assert s[..|s| - 1] == ToString(b);
      TrimIdentity(ToString(b));
      ParsePlain(b);
      assert EndsWith(s, "*") <==> m == "*";
  }

  /** Round trip: every canonical type is the parse of its own spelling. */
  lemma ParseCanonical(t: CppType)
    requires Canonical(t)
    ensures Parse(ToString(t)) == Ok(t)
  {
    if Plain(t) {
      ParsePlain(t);
    } else {
      var s := ToString(t);
      assert s == CONST_PREFIX + ToString(t.base);
      assert s[|CONST_PREFIX|..] == ToString(t.base);
      ParsePlain(t.base);
      PlainNotConst(t.base);
      assert StartsWith(s, CONST_PREFIX);
      assert s != "void" && s != "std::size_t" by {
        assert s[..|CONST_PREFIX|][0] == s[0] == 'c';
      }
      assert Parse(s) == Ok(Const(t.base));
    }
  }

  /** The generator's cache of parsed type references. Only plain references
      are stored: the const, typename, pointer and reference cases leave the
      cache before it is written. */
  class TypeCache {
    var existing: map<string, CppType>

    ghost predicate Valid()
      reads this
    {
      forall k | k in existing :: Parse(k) == Ok(existing[k])
    }

    constructor ()
      ensures Valid() && existing == map[]
    {
      existing := map[];
    }

    /** `WrappedType.invoke(type)`: the same result as parsing, served from
        the cache when the spelling was seen before. */
    method Invoke(s: string) returns (r: Result<CppType>)
      requires Valid()
      modifies this
      decreases |s|
      ensures Valid()
      ensures r == Parse(s)
      ensures old(existing).Keys <= existing.Keys
    {
      if s == "void" {
        return Ok(VOID);
      }
      if s == "std::size_t" {
        r := Invoke("size_t");
        return;
      }
      if s in existing {
        return Ok(existing[s]);
      }
      if StartsWith(s, CONST_PREFIX) {
        var inner := Invoke(s[|CONST_PREFIX|..]);
        r := if inner.Ok? then Ok(Const(inner.value)) else inner;
      } else if StartsWith(s, TYPENAME_PREFIX) {
        r := Ok(Typename(s[|TYPENAME_PREFIX|..]));
      } else if EndsWith(s, "*") {
        var inner := Invoke(Trim(s[..|s| - 1]));
        r := if inner.Ok? then Ok(PointerTo(inner.value)) else inner;
      } else if EndsWith(s, "&") {
        var inner := Invoke(Trim(s[..|s| - 1]));
        r := if inner.Ok? then Ok(ReferenceTo(inner.value)) else inner;
      } else if |s| == 0 {
        r := Fail(IllegalArgument);
      } else {
        r := Ok(Ref(s));
        existing := existing[s := Ref(s)];
      }
    }
  }
}
