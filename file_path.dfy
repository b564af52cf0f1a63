/** The generator's file handle as far as paths go: a file is its list of
    path segments below the root. Everything that touches the file system
    (listing, reading, writing, deleting) is outside this model. */
module FilePaths {
  import opened Wrappers
  import opened Text

  datatype File = File(pathSegments: seq<string>)

  /** `File(path)`: a relative path is taken below `cwd` (the working
      directory, a parameter here); the leading '/' is dropped and the rest
      split on '/'. */
  function FromPath(path: string, cwd: string): (f: File)
    ensures |f.pathSegments| >= 1
  {
    var absolute := if StartsWith(path, "/") then path else cwd + "/" + path;
    File(Split(absolute[1..], '/'))
  }

  /** `File(parent, name)`. */
  function Child(parent: File, name: string): (r: File)
    ensures |r.pathSegments| == |parent.pathSegments| + 1 && Name(r) == name
  {
    File(parent.pathSegments + [name])
  }

  /** `path`: '/' followed by the segments joined with '/'. */
  function Path(f: File): (r: string)
    ensures |r| >= 1 && r[0] == '/'
  {
    "/" + Join(f.pathSegments, "/")
  }

  /** `name`: the last segment, or "/" for the root. */
  function Name(f: File): string {
    if |f.pathSegments| == 0 then "/" else f.pathSegments[|f.pathSegments| - 1]
  }

  /** `parent`: every segment but the last; the root has none, and the
      sub-list it asks for is out of bounds. */
  function Parent(f: File): (r: Result<File>)
    ensures r.Fail? <==> |f.pathSegments| == 0
    ensures r.Fail? ==> r == Fail(IndexOutOfBounds)
    ensures r.Ok? ==> Child(r.value, Name(f)) == f
  {
    if |f.pathSegments| == 0 then Fail(IndexOutOfBounds)
    else Ok(File(f.pathSegments[..|f.pathSegments| - 1]))
  }

  /** The first position where the two segment lists differ, looking only as
      far as the shorter one goes (`zip` and `indexOfFirst`). */
  function FirstMismatch(a: seq<string>, b: seq<string>): (r: Option<nat>)
    ensures r.None? ==> forall i :: 0 <= i < |a| && i < |b| ==> a[i] == b[i]
    ensures r.Some? ==> (r.value < |a| && r.value < |b| && a[r.value] != b[r.value] &&
      forall i :: 0 <= i < r.value ==> a[i] == b[i])
  {
    if |a| == 0 || |b| == 0 then None
    else if a[0] != b[0] then Some(0)
    else
      var rest := FirstMismatch(a[1..], b[1..]);
      if rest.None? then None else Some(rest.value + 1)
  }

  function Ups(n: nat): (r: seq<string>)
    ensures |r| == n && forall i :: 0 <= i < n ==> r[i] == ".."
  {
    if n == 0 then [] else [".."] + Ups(n - 1)
  }

  /** The segments of `relativeTo(other)`: `None` when the lists never
      differ (the absolute path is used instead); otherwise one ".." for each
      directory of `other` past the common part, then this file's segments
      from the first difference on. */
  function RelativeSegments(f: File, other: File): Option<seq<string>> {
    var c := FirstMismatch(f.pathSegments, other.pathSegments);
    if c.None? then None
    else Some(Ups(|other.pathSegments| - c.value - 1) + f.pathSegments[c.value..])
  }

  function RelativeTo(f: File, other: File): string {
    var r := RelativeSegments(f, other);
    if r.None? then Path(f) else Join(r.value, "/")
  }

  // ---------------------------------------------------------------------
  // Properties

  /** `split` undoes `joinToString` when no piece holds the separator. */
  lemma {:induction false} SplitNoSeparator(p: string, sep: char)
    requires sep !in p
    ensures Split(p, sep) == [p]
    decreases |p|
  {
    if |p| > 0 {
      SplitNoSeparator(p[1..], sep);
      assert [p[0]] + p[1..] == p;
    }
  }

  lemma {:induction false} SplitAfterPiece(p: string, rest: string, sep: char)
    requires sep !in p
    ensures Split(p + [sep] + rest, sep) == [p] + Split(rest, sep)
    decreases |p|
  {
    var s := p + [sep] + rest;
    if |p| == 0 {
      assert s[1..] == rest;
    } else {
      assert s[1..] == p[1..] + [sep] + rest;
      SplitAfterPiece(p[1..], rest, sep);
      assert [p[0]] + p[1..] == p;
    }
  }

  lemma {:induction false} SplitJoin(parts: seq<string>, sep: char)
    requires |parts| >= 1
    requires forall i :: 0 <= i < |parts| ==> sep !in parts[i]
    ensures Split(Join(parts, [sep]), sep) == parts
    decreases |parts|
  {
    if |parts| == 1 {
      SplitNoSeparator(parts[0], sep);
    } else {
      SplitJoin(parts[1..], sep);
      SplitAfterPiece(parts[0], Join(parts[1..], [sep]), sep);
      assert [parts[0]] + parts[1..] == parts;
    }
  }

  /** Reading an absolute path and printing it gives the same text back; a
      relative one comes back below the working directory. */
  lemma PathRoundTrip(path: string, cwd: string)
    ensures StartsWith(path, "/") ==> Path(FromPath(path, cwd)) == path
    ensures !StartsWith(path, "/") && StartsWith(cwd, "/") ==> Path(FromPath(path, cwd)) == cwd + "/" + path
  {
    var absolute := if StartsWith(path, "/") then path else cwd + "/" + path;
    assert |absolute| > 0 && absolute[0] == '/' ==> "/" + absolute[1..] == absolute;
    if !StartsWith(path, "/") && StartsWith(cwd, "/") {
      assert absolute[0] == cwd[0];
    }
  }

  /** A file whose segments hold no '/' is read back from its own path. */
  lemma SegmentsRoundTrip(f: File, cwd: string)
    requires |f.pathSegments| >= 1
    requires forall i :: 0 <= i < |f.pathSegments| ==> '/' !in f.pathSegments[i]
    ensures FromPath(Path(f), cwd) == f
  {
    SplitJoin(f.pathSegments, '/');
    assert StartsWith(Path(f), "/");
    assert Path(f)[1..] == Join(f.pathSegments, "/");
  }

  /** The root's path is "/", but reading "/" back gives one empty segment,
      whose name is empty rather than "/". */
  lemma RootExample(cwd: string)
    ensures Path(File([])) == "/" && Name(File([])) == "/"
    ensures FromPath("/", cwd) == File([""]) && Name(FromPath("/", cwd)) == ""
  {
  }

  /** A child's parent is the file it was made from, and its name is the
      name it was given; the root has no parent. */
  lemma ChildParent(parent: File, name: string)
    ensures Parent(Child(parent, name)) == Ok(parent)
    ensures Name(Child(parent, name)) == name
    ensures Parent(File([])).Fail?
  {
    assert (parent.pathSegments + [name])[..|parent.pathSegments|] == parent.pathSegments;
  }

  /** When the segment lists agree as far as both go (one is a prefix of the
      other, or they are equal), the absolute path is returned. */
  lemma RelativeToPrefix(f: File, other: File)
    requires forall i :: 0 <= i < |f.pathSegments| && i < |other.pathSegments| ==>
      f.pathSegments[i] == other.pathSegments[i]
    ensures RelativeTo(f, other) == Path(f)
  {
  }

  /** Following a relative path from a directory: ".." goes up (the root
      stays the root), any other segment goes down. */
  function Resolve(dir: seq<string>, rel: seq<string>): seq<string>
    decreases |rel|
  {
    if |rel| == 0 then dir
    else if rel[0] == ".." then Resolve(if |dir| == 0 then [] else dir[..|dir| - 1], rel[1..])
    else Resolve(dir + [rel[0]], rel[1..])
  }

  lemma {:induction false} ResolveUps(dir: seq<string>, n: nat, rest: seq<string>)
    requires n <= |dir|
    ensures Resolve(dir, Ups(n) + rest) == Resolve(dir[..|dir| - n], rest)
    decreases n
  {
    if n > 0 {
      assert (Ups(n) + rest)[0] == "..";
      assert (Ups(n) + rest)[1..] == Ups(n - 1) + rest;
      ResolveUps(dir[..|dir| - 1], n - 1, rest);
      assert dir[..|dir| - 1][..|dir| - 1 - (n - 1)] == dir[..|dir| - n];
    } else {
      assert Ups(0) + rest == rest;
      assert dir[..|dir|] == dir;
    }
  }

  lemma {:induction false} ResolveDown(dir: seq<string>, rel: seq<string>)
    requires forall i :: 0 <= i < |rel| ==> rel[i] != ".."
    ensures Resolve(dir, rel) == dir + rel
    decreases |rel|
  {
    if |rel| > 0 {
      ResolveDown(dir + [rel[0]], rel[1..]);
      assert dir + [rel[0]] + rel[1..] == dir + rel;
    } else {
      assert dir + rel == dir;
    }
  }

  /** The relative path leads from the directory holding `other` back to
      this file, provided this file's segments past the common part contain
      no "..". */
  lemma RelativeResolves(f: File, other: File)
    requires RelativeSegments(f, other).Some?
    requires var c := FirstMismatch(f.pathSegments, other.pathSegments).value;
      forall i :: c <= i < |f.pathSegments| ==> f.pathSegments[i] != ".."
    ensures Resolve(Parent(other).value.pathSegments, RelativeSegments(f, other).value) == f.pathSegments
  {
    var a := f.pathSegments;
    var o := other.pathSegments;
    var c := FirstMismatch(a, o).value;
    var dir := o[..|o| - 1];
    ResolveUps(dir, |o| - c - 1, a[c..]);
    assert dir[..|dir| - (|o| - c - 1)] == o[..c] == a[..c];
    ResolveDown(a[..c], a[c..]);
    assert a[..c] + a[c..] == a;
  }

  /** A header next to the output file is named by its own name; one a
      directory further down keeps that directory; one in a sibling
      directory climbs first. */
  lemma RelativeExamples()
    ensures RelativeTo(File(["out", "a.h"]), File(["out", "b.kt"])) == "a.h"
    ensures RelativeTo(File(["out", "inc", "a.h"]), File(["out", "b.kt"])) == "inc/a.h"
    ensures RelativeTo(File(["out", "a.h"]), File(["out", "kt", "b.kt"])) == "../a.h"
  {
    assert ["out", "a.h"][1..] == ["a.h"];
    assert ["out", "inc", "a.h"][1..] == ["inc", "a.h"];
    assert FirstMismatch(["out", "kt", "b.kt"][1..], ["a.h"]) == Some(0);
    assert ["out", "kt", "b.kt"][1..] == ["kt", "b.kt"];
    assert Ups(1) + ["a.h"] == ["..", "a.h"];
    assert Join(["..", "a.h"], "/") == ".." + "/" + "a.h";
    assert Join(["inc", "a.h"], "/") == "inc" + "/" + "a.h";
  }
}
