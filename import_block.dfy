/** The import block of a generated Kotlin file: the fully qualified names
    every symbol of the file refers to, sorted, without duplicates, without
    root-package names and without names of the file's own package, each
    written as an `import` line. */
module ImportBlocks {
  import opened Wrappers
  import opened Text
  import opened StringOrder
  import opened CodeStrings
  import opened Symbols

  /** `fqNames` of every symbol reachable from `s`, in the order
      `findFqSymbols` meets them: a symbol's own names, then those of the
      symbols it contains. */
  function FqNames(s: Symbol): seq<string>
    decreases s
  {
    match s
    case Extension(pkg, m) => [pkg + "." + m]
    case KotlinType(_, names) => names
    case Dereference(a) => FqNames(a)
    case Return(v) => FqNames(v)
    case Delete(v) => FqNames(v)
    case New(v) => FqNames(v)
    case Call(c, args) => FqNames(c) + FqNamesAll(args)
    case Dot(a, b) => FqNames(a) + FqNames(b)
    case Arrow(a, b) => FqNames(a) + FqNames(b)
    case Assign(a, b) => FqNames(a) + FqNames(b)
    case Op(_, a, b) => FqNames(a) + FqNames(b)
    case RawCast(_, x) => FqNames(x)
    case Block(h, body, post) =>
      FqNames(h) + FqNamesAll(body) + (if post.Some? then FqNames(post.value) else [])
    case _ => []
  }

  function FqNamesAll(syms: seq<Symbol>): seq<string>
    decreases syms
  {
    if |syms| == 0 then [] else FqNames(syms[0]) + FqNamesAll(syms[1..])
  }

  /** The filter of `ImportBlock.build`: a name in the root package (no
      `.`) is never imported, nor is one directly inside `pkg`. */
  predicate Imported(pkg: string, fq: string) {
    '.' in fq && !(StartsWith(fq, pkg + ".") && '.' !in fq[|pkg| + 1..])
  }

  function FilterImported(pkg: string, names: seq<string>): (r: seq<string>)
    ensures forall y :: y in r <==> y in names && Imported(pkg, y)
    ensures |r| <= |names|
    decreases |names|
  {
    if |names| == 0 then []
    else
      var rest := FilterImported(pkg, names[1..]);
      assert forall y :: y in names <==> y == names[0] || y in names[1..] by {
        assert names == [names[0]] + names[1..];
      }
      if Imported(pkg, names[0]) then [names[0]] + rest else rest
  }

  /** Keeping some elements of a sorted sequence keeps it sorted. */
  lemma {:induction false} FilterSorted(pkg: string, names: seq<string>)
    requires StrictlySorted(names)
    ensures StrictlySorted(FilterImported(pkg, names))
    decreases |names|
  {
    if |names| > 0 {
      FilterSorted(pkg, names[1..]);
      var rest := FilterImported(pkg, names[1..]);
      if Imported(pkg, names[0]) {
        forall i, j | 0 <= i < j < |rest| + 1
          ensures Less(([names[0]] + rest)[i], ([names[0]] + rest)[j])
        {
          if i == 0 {
            assert rest[j - 1] in names[1..];
          }
        }
      }
    }
  }

  /** The names the import block imports, in the order of its lines. */
  function ImportedNames(pkg: string, syms: seq<Symbol>): seq<string> {
    FilterImported(pkg, SortedDistinct(FqNamesAll(syms)))
  }

  /** The import block names every imported name its file refers to exactly
      once, in sorted order, and nothing else. */
  lemma ImportedNamesSpec(pkg: string, syms: seq<Symbol>)
    ensures StrictlySorted(ImportedNames(pkg, syms))
    ensures forall y :: y in ImportedNames(pkg, syms) <==> y in FqNamesAll(syms) && Imported(pkg, y)
  {
    FilterSorted(pkg, SortedDistinct(FqNamesAll(syms)));
  }

  /** The lines written for `names`. */
  function ImportLines(names: seq<string>): string
    decreases |names|
  {
    if |names| == 0 then "" else "import " + names[0] + "\n" + ImportLines(names[1..])
  }

  /** Writing one import line and then the rest is writing them all. */
  lemma ImportLineStep(before: string, indent: int, fq: string, rest: string)
    ensures PutString(PutChar(Render(Import(fq), before, indent, false), indent, '\n'), indent, rest)
      == PutString(before, indent, "import " + fq + "\n" + rest)
  {
    var t1 := Render(Import(fq), before, indent, false);
    PutStringConcat(before, indent, "import ", fq);
    PutStringIsPutChars(t1, indent, "\n");
    assert "\n"[1..] == "";
    PutStringConcat(before, indent, "import " + fq, "\n");
    PutStringConcat(before, indent, "import " + fq + "\n", rest);
  }

  /** `ImportBlock.build`: one `import` line per name of the sorted, distinct
      names found in the root builder's symbols, skipping those the filter
      rejects. */
  method BuildImportBlock(pkg: string, rootSymbols: seq<Symbol>, b: CodeStringBuilder)
    modifies b
    ensures b.indent == old(b.indent)
    ensures b.text == PutString(old(b.text), old(b.indent), ImportLines(ImportedNames(pkg, rootSymbols)))
  {
    var names := SortedDistinct(FqNamesAll(rootSymbols));
    ghost var goal := PutString(b.text, b.indent, ImportLines(FilterImported(pkg, names)));
    var i := 0;
    while i < |names|
      invariant 0 <= i <= |names| && b.indent == old(b.indent)
      invariant PutString(b.text, b.indent, ImportLines(FilterImported(pkg, names[i..]))) == goal
    {
      var fq := names[i];
      assert names[i..][1..] == names[i + 1..];
      ghost var rest := FilterImported(pkg, names[i + 1..]);
      ghost var before := b.text;
      if Imported(pkg, fq) {
        assert FilterImported(pkg, names[i..]) == [fq] + rest;
        assert ([fq] + rest)[1..] == rest;
        assert ImportLines([fq] + rest) == "import " + fq + "\n" + ImportLines(rest);
        Build(Import(fq), b, false);
        b.AppendChar('\n');
        ImportLineStep(before, b.indent, fq, ImportLines(rest));
      } else {
        assert FilterImported(pkg, names[i..]) == rest;
      }
      i := i + 1;
    }
    assert names[i..] == [];
  }

  /** In a file's top-level builder (no open block) the import block is
      exactly its lines. */
  lemma ImportBlockAtTop(text: string, pkg: string, rootSymbols: seq<Symbol>)
    ensures PutString(text, 0, ImportLines(ImportedNames(pkg, rootSymbols)))
      == text + ImportLines(ImportedNames(pkg, rootSymbols))
  {
    TopString(text, ImportLines(ImportedNames(pkg, rootSymbols)));
  }

  /** `extensionMethod(pkg, method)` writes the method's name and asks for
      `pkg.method` to be imported. */
  lemma ExtensionNames(pkg: string, m: string, text: string)
    ensures FqNames(Extension(pkg, m)) == [pkg + "." + m]
    ensures Render(Extension(pkg, m), text, 0, false) == text + m
  {
    TopString(text, m);
  }

  /** Filter examples: a root-package name and a same-package name are
      skipped; a name in a sub-package or another package is imported. */
  lemma ImportedExamples()
    ensures !Imported("a.b", "Int")
    ensures !Imported("a.b", "a.b.C")
    ensures Imported("a.b", "a.b.c.D")
    ensures Imported("a.b", "x.C")
  {
    assert '.' in "a.b.C";
    assert StartsWith("a.b.C", "a.b" + ".");
    assert "a.b.C"[4..] == "C";
    assert "a.b.c.D"[4..] == "c.D";
    assert '.' in "c.D";
    assert '.' in "x.C";
    assert !StartsWith("x.C", "a.b" + ".");
  }
}
