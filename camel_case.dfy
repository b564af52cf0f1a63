/** `splitCamelcase`: a name is cut before an upper-case letter that
    follows a lower-case one, and before an upper-case letter that follows
    a letter and is followed by a lower-case one (so an acronym stays in one
    piece and `_` never starts a piece); the pieces are joined back
    lower-cased with `_` between them. */
module CamelCase {
  import opened Text

  /** A cut falls just before position `p`. */
  predicate Boundary(s: string, p: int) {
    0 < p < |s|
    && ((IsLower(s[p - 1]) && IsUpper(s[p]))
        || (p + 1 < |s| && IsLetter(s[p - 1]) && IsUpper(s[p]) && IsLower(s[p + 1])))
  }

  /** The pieces of `s[start..]`, where no cut lies in `start + 1 .. p - 1`. */
  function SplitFrom(s: string, start: nat, p: nat): seq<string>
    requires start < p <= |s| + 1 && start <= |s|
    decreases |s| + 1 - p
  {
    if p >= |s| then [s[start..]]
    else if Boundary(s, p) then [s[start..p]] + SplitFrom(s, p, p + 1)
    else SplitFrom(s, start, p + 1)
  }

  function Pieces(s: string): seq<string> {
    SplitFrom(s, 0, 1)
  }

  /** The pieces put back together give the name, a non-empty name gives
      non-empty pieces, every piece after the first starts with an
      upper-case letter at a cut, and no piece holds a cut inside it. */
  lemma {:induction false} SplitFromSpec(s: string, start: nat, p: nat)
    requires start < p <= |s| + 1 && start <= |s|
    requires forall q :: start < q < p ==> !Boundary(s, q)
    ensures Concat(SplitFrom(s, start, p)) == s[start..]
    ensures |SplitFrom(s, start, p)| > 0
    ensures start < |s| ==> forall i :: 0 <= i < |SplitFrom(s, start, p)| ==> |SplitFrom(s, start, p)[i]| > 0
    ensures forall i :: 1 <= i < |SplitFrom(s, start, p)| ==> IsUpper(SplitFrom(s, start, p)[i][0])
    decreases |s| + 1 - p
  {
    var r := SplitFrom(s, start, p);
    if p >= |s| {
      assert r == [s[start..]];
      assert Concat(r) == s[start..] + Concat([]);
    } else if Boundary(s, p) {
      SplitFromSpec(s, p, p + 1);
      var rest := SplitFrom(s, p, p + 1);
      assert r == [s[start..p]] + rest;
      assert r[1..] == rest;
      assert s[start..] == s[start..p] + s[p..];
      assert rest[0][0] == s[p] by {
        assert Concat(rest) == rest[0] + Concat(rest[1..]);
        assert |rest[0]| > 0;
      }
    } else {
      SplitFromSpec(s, start, p + 1);
    }
  }

  lemma PiecesSpec(s: string)
    ensures Concat(Pieces(s)) == s
    ensures |Pieces(s)| > 0
    ensures |s| > 0 ==> forall i :: 0 <= i < |Pieces(s)| ==> |Pieces(s)[i]| > 0
    ensures forall i :: 1 <= i < |Pieces(s)| ==> IsUpper(Pieces(s)[i][0])
  {
    SplitFromSpec(s, 0, 1);
    assert s[0..] == s;
  }

  /** Every piece lower-cased, joined with `_`. */
  function LowerAll(parts: seq<string>): (r: seq<string>)
    ensures |r| == |parts|
    ensures forall i :: 0 <= i < |r| ==> r[i] == Lower(parts[i])
  {
    if |parts| == 0 then [] else [Lower(parts[0])] + LowerAll(parts[1..])
  }

  /** `splitCamelcase().joinToString("_") { it.toLowerCase() }`. */
  function Snake(s: string): string {
    Join(LowerAll(Pieces(s)), "_")
  }

  lemma PostIncrementPieces()
    ensures Pieces("PostIncrement") == ["Post", "Increment"]
  {
    var s := "PostIncrement";
    assert !Boundary(s, 1) && !Boundary(s, 2) && !Boundary(s, 3);
    assert Boundary(s, 4);
    assert s[0..4] == "Post";
    assert forall q :: 5 <= q < |s| ==> !Boundary(s, q);
    SplitTail(s, 4, 5);
  }

  /** With no cut left after `p`, the rest of the name is one piece. */
  lemma {:induction false} SplitTail(s: string, start: nat, p: nat)
    requires start < p <= |s| + 1 && start <= |s|
    requires forall q :: p <= q < |s| ==> !Boundary(s, q)
    ensures SplitFrom(s, start, p) == [s[start..]]
    decreases |s| + 1 - p
  {
    if p < |s| {
      SplitTail(s, start, p + 1);
    }
  }

  /** `_` is not a letter, so "Binary_And" stays in one piece. */
  lemma BinaryAndPieces()
    ensures Pieces("Binary_And") == ["Binary_And"]
  {
    var s := "Binary_And";
    assert forall q :: 1 <= q < |s| ==> !Boundary(s, q);
    SplitTail(s, 0, 1);
  }

  lemma PostIncrementSnake()
    ensures Snake("PostIncrement") == "post" + "_" + "increment"
  {
    PostIncrementPieces();
    LowerPostIncrement();
    var lowered := LowerAll(["Post", "Increment"]);
    assert lowered == ["post", "increment"];
    assert lowered[1..] == ["increment"];
    assert Join(lowered, "_") == "post" + "_" + "increment";
  }

  lemma LowerPostIncrement()
    ensures Lower("Post") == "post" && Lower("Increment") == "increment"
  {
    LowerWord("Post", "post");
    LowerWord("Increment", "increment");
  }

  lemma BinaryAndSnake()
    ensures Snake("Binary_And") == "binary_and"
  {
    BinaryAndPieces();
    LowerWord("Binary_And", "binary_and");
    assert LowerAll(["Binary_And"]) == ["binary_and"];
  }

  lemma LowerWord(s: string, t: string)
    requires |s| == |t|
    requires forall i :: 0 <= i < |s| ==> LowerChar(s[i]) == t[i]
    ensures Lower(s) == t
  {
  }

  predicate NoUpper(s: string) {
    forall k :: 0 <= k < |s| ==> !IsUpper(s[k])
  }

  /** Lowering keeps the total length of the pieces and leaves no
      upper-case letter in any of them. */
  lemma {:induction false} LowerAllShape(parts: seq<string>)
    ensures |Concat(LowerAll(parts))| == |Concat(parts)|
    ensures forall i :: 0 <= i < |parts| ==> NoUpper(LowerAll(parts)[i])
  {
    if |parts| > 0 {
      LowerAllShape(parts[1..]);
      assert LowerAll(parts)[1..] == LowerAll(parts[1..]);
    }
  }

  /** Joining pieces without upper-case letters with `_` adds one `_`
      between each two pieces and no upper-case letter. */
  lemma {:induction false} JoinShape(parts: seq<string>)
    requires forall i :: 0 <= i < |parts| ==> NoUpper(parts[i])
    ensures NoUpper(Join(parts, "_"))
    ensures |parts| > 0 ==> |Join(parts, "_")| == |Concat(parts)| + |parts| - 1
  {
    if |parts| > 1 {
      JoinShape(parts[1..]);
      assert Join(parts, "_") == parts[0] + "_" + Join(parts[1..], "_");
    }
  }

  /** `Snake` holds no upper-case letter, and it is the name with one `_`
      put in at each cut: no character is lost and none is added besides. */
  lemma SnakeShape(s: string)
    ensures NoUpper(Snake(s))
    ensures |s| > 0 ==> |Snake(s)| == |s| + |Pieces(s)| - 1
  {
    PiecesSpec(s);
    LowerAllShape(Pieces(s));
    JoinShape(LowerAll(Pieces(s)));
  }
}
