/** The compiler and linker options derived from the headers and libraries
    a generated binding is built against: libraries split into static and
    dynamic ones, and the directory and name options for each. */
module CompileFlagsModel {
  import opened Wrappers
  import opened Text
  import opened FilePaths

  predicate IsLibrary(lib: string) { EndsWith(lib, ".a") || EndsWith(lib, ".so") }

  /** `libraries.filter { it.endsWith(".a") && !linkStatics }`. */
  function StaticNames(libs: seq<string>, linkStatics: bool): (r: seq<string>)
    ensures |r| <= |libs|
    ensures forall x :: x in r <==> x in libs && EndsWith(x, ".a") && !linkStatics
  {
    if |libs| == 0 then []
    else (if EndsWith(libs[0], ".a") && !linkStatics then [libs[0]] else []) + StaticNames(libs[1..], linkStatics)
  }

  /** `libraries.filter { linkStatics || it.endsWith(".so") }`. */
  function DynamicNames(libs: seq<string>, linkStatics: bool): (r: seq<string>)
    ensures |r| <= |libs|
    ensures forall x :: x in r <==> x in libs && (linkStatics || EndsWith(x, ".so"))
  {
    if |libs| == 0 then []
    else (if linkStatics || EndsWith(libs[0], ".so") then [libs[0]] else []) + DynamicNames(libs[1..], linkStatics)
  }

  function Files(paths: seq<string>, cwd: string): (r: seq<File>)
    ensures |r| == |paths|
    ensures forall i :: 0 <= i < |r| ==> r[i] == FromPath(paths[i], cwd)
  {
    if |paths| == 0 then [] else [FromPath(paths[0], cwd)] + Files(paths[1..], cwd)
  }

  /** `toSet()` on a list: the first occurrence of each element, in order. */
  function Distinct<T(==)>(s: seq<T>): (r: seq<T>)
    ensures forall i :: 0 <= i < |r| ==> r[i] in s
    ensures forall i :: 0 <= i < |s| ==> s[i] in r
    ensures forall i, j :: 0 <= i < j < |r| ==> r[i] != r[j]
  {
    if |s| == 0 then []
    else
      var d := Distinct(s[..|s| - 1]);
      var x := s[|s| - 1];
      assert forall i :: 0 <= i < |s| - 1 ==> s[i] == s[..|s| - 1][i];
      if x in d then d else d + [x]
  }

  /** The directories holding the given files (every file read from a path
      has at least one segment, so every one has a parent). */
  function Parents(fs: seq<File>): (r: seq<File>)
    requires forall i :: 0 <= i < |fs| ==> |fs[i].pathSegments| >= 1
    ensures |r| == |fs|
    ensures forall i :: 0 <= i < |r| ==> Parent(fs[i]) == Ok(r[i])
  {
    if |fs| == 0 then [] else [Parent(fs[0]).value] + Parents(fs[1..])
  }

  datatype CompileFlags = CompileFlags(headerFiles: seq<File>, staticLibs: seq<File>, dynamicLibs: seq<File>)

  /** Every file the flags hold was read from a path. */
  predicate FromPaths(fs: seq<File>) {
    forall i :: 0 <= i < |fs| ==> |fs[i].pathSegments| >= 1
  }

  predicate Valid(c: CompileFlags) {
    FromPaths(c.headerFiles) && FromPaths(c.staticLibs) && FromPaths(c.dynamicLibs)
  }

  /** The constructor: any library not ending in ".a" or ".so" is refused;
      otherwise the headers become a set of files, and the libraries are
      split (with `linkStatics`, every library is linked dynamically). */
  function Create(headers: seq<string>, libraries: seq<string>, linkStatics: bool, cwd: string): (r: Result<CompileFlags>)
    ensures r.Ok? ==> Valid(r.value)
  {
    if exists i :: 0 <= i < |libraries| && !IsLibrary(libraries[i]) then Fail(IllegalState)
    else Ok(CompileFlags(Distinct(Files(headers, cwd)),
                         Files(StaticNames(libraries, linkStatics), cwd),
                         Files(DynamicNames(libraries, linkStatics), cwd)))
  }

  /** The `-l` name of a library: a leading "lib" goes, then a trailing
      ".so", then a trailing ".a". */
  function LinkName(name: string): (r: string)
    ensures |r| <= |name|
    ensures !StartsWith(name, "lib") && !EndsWith(name, ".so") && !EndsWith(name, ".a") ==> r == name
  {
    var a := if StartsWith(name, "lib") then name[3..] else name;
    var b := if EndsWith(a, ".so") then a[..|a| - 3] else a;
    if EndsWith(b, ".a") then b[..|b| - 2] else b
  }

  /** One option per directory: `flag` followed by the directory's path
      (`-L` for library directories, `-I` for include directories). */
  function DirFlags(flag: string, dirs: seq<File>): (r: seq<string>)
    ensures |r| == |dirs|
  {
    seq(|dirs|, i requires 0 <= i < |dirs| => flag + Path(dirs[i]))
  }

  function LinkFlags(libs: seq<File>): (r: seq<string>)
    ensures |r| == |libs|
  {
    seq(|libs|, i requires 0 <= i < |libs| => "-l" + LinkName(Name(libs[i])))
  }

  function Names(fs: seq<File>): (r: seq<string>)
    ensures |r| == |fs|
  {
    seq(|fs|, i requires 0 <= i < |fs| => Name(fs[i]))
  }

  function Paths(fs: seq<File>): (r: seq<string>)
    ensures |r| == |fs|
  {
    seq(|fs|, i requires 0 <= i < |fs| => Path(fs[i]))
  }

  const COMPRESS_POINTERS: string := " -DV8_COMPRESS_POINTERS"

  /** `linkerOpts`: the distinct directories of the dynamic libraries as
      `-L` options, then each library as an `-l` option. */
  function LinkerOpts(c: CompileFlags): (r: Option<string>)
    requires Valid(c)
    ensures r.None? <==> |c.dynamicLibs| == 0
  {
    if |c.dynamicLibs| == 0 then None
    else Some(Join(DirFlags("-L", Distinct(Parents(c.dynamicLibs))), " ") + " " + Join(LinkFlags(c.dynamicLibs), " "))
  }

  /** `libraryOpts`: the static libraries' file names. */
  function LibraryOpts(c: CompileFlags): (r: Option<string>)
    ensures r.None? <==> |c.staticLibs| == 0
  {
    if |c.staticLibs| == 0 then None else Some(Join(Names(c.staticLibs), " "))
  }

  /** `libraryPaths`: the distinct directories of the static libraries. */
  function LibraryPaths(c: CompileFlags): (r: Option<string>)
    requires Valid(c)
    ensures r.None? <==> |c.staticLibs| == 0
  {
    if |c.staticLibs| == 0 then None else Some(Join(Paths(Distinct(Parents(c.staticLibs))), " "))
  }

  /** The directories `includeDirs` names, in order. */
  function IncludeDirList(c: CompileFlags): seq<File>
    requires Valid(c)
  {
    Distinct(Parents(c.headerFiles))
  }

  /** `includeDirs`: the distinct header directories as `-I` options,
      followed by the pointer-compression define. */
  function IncludeDirs(c: CompileFlags): (r: Option<string>)
    requires Valid(c)
    ensures r.None? <==> |c.headerFiles| == 0
  {
    if |c.headerFiles| == 0 then None
    else Some(Join(DirFlags("-I", IncludeDirList(c)), " ") + COMPRESS_POINTERS)
  }

  // ---------------------------------------------------------------------
  // Properties

  /** Construction fails, with an illegal state, exactly when some library
      ends in neither ".a" nor ".so". */
  lemma CreateFails(headers: seq<string>, libraries: seq<string>, linkStatics: bool, cwd: string)
    ensures Create(headers, libraries, linkStatics, cwd).Fail? <==>
      exists i :: 0 <= i < |libraries| && !EndsWith(libraries[i], ".a") && !EndsWith(libraries[i], ".so")
    ensures Create(headers, libraries, linkStatics, cwd).Fail? ==> Create(headers, libraries, linkStatics, cwd).error == IllegalState
  {
  }

  lemma NotBoth(lib: string)
    ensures !(EndsWith(lib, ".a") && EndsWith(lib, ".so"))
  {
    if EndsWith(lib, ".a") {
      assert lib[|lib| - 1] == lib[|lib| - 2..][1] == 'a';
    }
    if EndsWith(lib, ".so") {
      assert lib[|lib| - 1] == lib[|lib| - 3..][2] == 'o';
    }
  }

  /** Every accepted library lands in exactly one of the two lists. */
  lemma {:induction false} Partition(libs: seq<string>, linkStatics: bool)
    requires forall i :: 0 <= i < |libs| ==> IsLibrary(libs[i])
    ensures multiset(StaticNames(libs, linkStatics)) + multiset(DynamicNames(libs, linkStatics)) == multiset(libs)
  {
    if |libs| > 0 {
      var rest := libs[1..];
      TailLibraries(libs);
      Partition(rest, linkStatics);
      PartitionHead(libs, linkStatics);
      ConsMultiset(libs);
    }
  }

  lemma TailLibraries(libs: seq<string>)
    requires |libs| > 0 && forall i :: 0 <= i < |libs| ==> IsLibrary(libs[i])
    ensures IsLibrary(libs[0]) && forall i :: 0 <= i < |libs| - 1 ==> IsLibrary(libs[1..][i])
  {
    forall i | 0 <= i < |libs| - 1 ensures IsLibrary(libs[1..][i]) {
      assert libs[1..][i] == libs[i + 1];
    }
  }

  lemma ConsMultiset(libs: seq<string>)
    requires |libs| > 0
    ensures multiset(libs) == multiset([libs[0]]) + multiset(libs[1..])
  {
    assert libs == [libs[0]] + libs[1..];
  }

  /** The first library goes to exactly one of the two lists. */
  lemma PartitionHead(libs: seq<string>, linkStatics: bool)
    requires |libs| > 0 && IsLibrary(libs[0])
    ensures multiset(StaticNames(libs, linkStatics)) + multiset(DynamicNames(libs, linkStatics)) ==
      multiset([libs[0]]) + multiset(StaticNames(libs[1..], linkStatics)) + multiset(DynamicNames(libs[1..], linkStatics))
  {
    var x := libs[0];
    var isStatic := EndsWith(x, ".a") && !linkStatics;
    var isDynamic := linkStatics || EndsWith(x, ".so");
    NotBoth(x);
    assert isStatic != isDynamic;
  }

  /** With `linkStatics`, no library is static and every one is dynamic. */
  lemma {:induction false} LinkStaticsAllDynamic(libs: seq<string>)
    ensures StaticNames(libs, true) == []
    ensures DynamicNames(libs, true) == libs
  {
    if |libs| > 0 {
      LinkStaticsAllDynamic(libs[1..]);
      assert libs == [libs[0]] + libs[1..];
    }
  }

  /** "lib" + n + ".so" and "lib" + n + ".a" both link as `-l`n (for the
      shared object, unless n itself ends in ".a"). */
  lemma LinkNameStrips(n: string)
    ensures LinkName("lib" + n + ".a") == n
    ensures !EndsWith(n, ".a") ==> LinkName("lib" + n + ".so") == n
  {
    var s := "lib" + n + ".a";
    assert StartsWith(s, "lib") && s[3..] == n + ".a";
    assert (n + ".a")[|n| + 1] == 'a';
    assert !EndsWith(n + ".a", ".so");
    var t := "lib" + n + ".so";
    assert StartsWith(t, "lib") && t[3..] == n + ".so";
    assert EndsWith(n + ".so", ".so") && (n + ".so")[..|n|] == n;
  }

  /** The include options end with the define and name each header's
      directory, each directory once. */
  lemma IncludeDirsShape(c: CompileFlags)
    requires Valid(c) && |c.headerFiles| > 0
    ensures EndsWith(IncludeDirs(c).value, COMPRESS_POINTERS)
    ensures forall i :: 0 <= i < |c.headerFiles| ==> Parent(c.headerFiles[i]).value in IncludeDirList(c)
    ensures forall i, j :: 0 <= i < j < |IncludeDirList(c)| ==> IncludeDirList(c)[i] != IncludeDirList(c)[j]
    ensures forall d :: d in IncludeDirList(c) ==> exists i :: 0 <= i < |c.headerFiles| && Parent(c.headerFiles[i]) == Ok(d)
  {
    var s := Join(DirFlags("-I", IncludeDirList(c)), " ");
    assert IncludeDirs(c).value == s + COMPRESS_POINTERS;
    assert (s + COMPRESS_POINTERS)[|s|..] == COMPRESS_POINTERS;
    var ps := Parents(c.headerFiles);
    forall i | 0 <= i < |c.headerFiles|
      ensures Parent(c.headerFiles[i]).value in IncludeDirList(c)
    {
      assert ps[i] in ps;
    }
    forall d | d in IncludeDirList(c)
      ensures exists i :: 0 <= i < |c.headerFiles| && Parent(c.headerFiles[i]) == Ok(d)
    {
      var i :| 0 <= i < |ps| && ps[i] == d;
    }
  }

  /** A header path "/dir/name" reads as the two segments. */
  lemma HeaderFile(dir: string, name: string, cwd: string)
    requires '/' !in dir && '/' !in name
    ensures FromPath("/" + dir + "/" + name, cwd) == File([dir, name])
  {
    assert [dir, name][1..] == [name];
    assert Join([dir, name], "/") == dir + "/" + name;
    assert Path(File([dir, name])) == "/" + (dir + "/" + name) == "/" + dir + "/" + name;
    SegmentsRoundTrip(File([dir, name]), cwd);
  }

  lemma DistinctPair<T>(x: T, y: T)
    ensures x != y ==> Distinct([x, y]) == [x, y]
    ensures Distinct([x, x]) == [x]
  {
    assert [x][..0] == [];
    assert Distinct([x]) == [x];
    assert [x, y][..1] == [x] && [x, x][..1] == [x];
  }

  lemma CreateHeadersOnly(headers: seq<string>, cwd: string)
    ensures Create(headers, [], false, cwd) == Ok(CompileFlags(Distinct(Files(headers, cwd)), [], []))
  {
  }

  /** Two headers in one directory give one `-I` option. */
  lemma IncludeDirsExample(dir: string, a: string, b: string, cwd: string)
    requires '/' !in dir && '/' !in a && '/' !in b && a != b
    ensures var c := Create(["/" + dir + "/" + a, "/" + dir + "/" + b], [], false, cwd);
      c.Ok? && IncludeDirs(c.value) == Some("-I/" + dir + COMPRESS_POINTERS)
  {
    HeaderFile(dir, a, cwd);
    HeaderFile(dir, b, cwd);
    var fa := File([dir, a]);
    var fb := File([dir, b]);
    var headers := ["/" + dir + "/" + a, "/" + dir + "/" + b];
    CreateHeadersOnly(headers, cwd);
    assert Files(headers, cwd) == [fa, fb];
    DistinctPair(fa, fb);
    OneDirectory(CompileFlags([fa, fb], [], []), dir, a, b);
  }

  lemma OneDirectory(c: CompileFlags, dir: string, a: string, b: string)
    requires c == CompileFlags([File([dir, a]), File([dir, b])], [], [])
    ensures Valid(c) && IncludeDirs(c) == Some("-I/" + dir + COMPRESS_POINTERS)
  {
    assert [dir, a][..1] == [dir] && [dir, b][..1] == [dir];
    assert Parents(c.headerFiles) == [File([dir]), File([dir])];
    DistinctPair(File([dir]), File([dir]));
    IncludeFlagOne(dir);
  }

  lemma IncludeFlagOne(dir: string)
    ensures Join(DirFlags("-I", [File([dir])]), " ") == "-I/" + dir
  {
    assert Path(File([dir])) == "/" + dir;
    assert DirFlags("-I", [File([dir])])[0] == "-I" + ("/" + dir) == "-I/" + dir;
  }

  /** One shared library "/dir/lib<n>.so" gives `-L/dir -l<n>`, and no
      static options. */
  lemma LinkerOptsExample(dir: string, n: string, cwd: string)
    requires '/' !in dir && '/' !in n && !EndsWith(n, ".a")
    ensures var c := Create([], ["/" + dir + "/lib" + n + ".so"], false, cwd);
      c.Ok? && LinkerOpts(c.value) == Some("-L/" + dir + " -l" + n) && LibraryOpts(c.value).None?
  {
    var lib := "/" + dir + "/lib" + n + ".so";
    var file := "lib" + n + ".so";
    assert lib == "/" + dir + "/" + file;
    assert EndsWith(lib, ".so") by { assert lib[|lib| - 3..] == file[|file| - 3..] == ".so"; }
    NotBoth(lib);
    assert StaticNames([lib], false) == [] && DynamicNames([lib], false) == [lib];
    assert '/' !in file;
    HeaderFile(dir, file, cwd);
    var f := File([dir, file]);
    assert IsLibrary(lib);
    assert Files([lib], cwd) == [f] && Files([], cwd) == [];
    assert Create([], [lib], false, cwd) == Ok(CompileFlags([], [], [f]));
    OneLibrary(CompileFlags([], [], [f]), dir, n);
  }

  lemma OneLibrary(c: CompileFlags, dir: string, n: string)
    requires !EndsWith(n, ".a")
    requires c == CompileFlags([], [], [File([dir, "lib" + n + ".so"])])
    ensures Valid(c) && LinkerOpts(c) == Some("-L/" + dir + " -l" + n)
  {
    LinkPathOne(dir, "lib" + n + ".so");
    LinkFlagOne(dir, n);
    assert "-L/" + dir + " " + ("-l" + n) == "-L/" + dir + " -l" + n;
  }

  lemma LinkPathOne(dir: string, file: string)
    ensures Join(DirFlags("-L", Distinct(Parents([File([dir, file])]))), " ") == "-L/" + dir
  {
    assert [dir, file][..1] == [dir];
    assert Parents([File([dir, file])]) == [File([dir])];
    assert [File([dir])][..0] == [];
    assert Distinct([File([dir])]) == [File([dir])];
    assert Path(File([dir])) == "/" + dir;
    assert DirFlags("-L", [File([dir])])[0] == "-L" + ("/" + dir) == "-L/" + dir;
  }

  lemma LinkFlagOne(dir: string, n: string)
    requires !EndsWith(n, ".a")
    ensures Join(LinkFlags([File([dir, "lib" + n + ".so"])]), " ") == "-l" + n
  {
    LinkNameStrips(n);
    assert Name(File([dir, "lib" + n + ".so"])) == "lib" + n + ".so";
  }
}
