/** The generator's way of making a name unused: put `_` in front of it
    until it is no longer taken. */
module Unique {

  /** `k` underscores. */
  function Underscores(k: nat): (r: string)
    ensures |r| == k
    ensures forall i :: 0 <= i < k ==> r[i] == '_'
  {
    if k == 0 then "" else "_" + Underscores(k - 1)
  }

  /** The first of `name`, `_name`, `__name`, ... that is not in `taken`. */
  function FreeName(taken: set<string>, name: string): (r: string)
    decreases |taken|
    ensures r !in taken
    ensures |r| >= |name|
    ensures name in taken ==> |r| > |name|
    ensures name !in taken ==> r == name
  {
    if name !in taken then name else FreeName(taken - {name}, "_" + name)
  }

  /** The free name is `name` with underscores in front, and every shorter
      underscore-prefixed form of `name` is taken: it is the first free one. */
  lemma {:induction false} FreeNameIsFirstFree(taken: set<string>, name: string)
    ensures var r := FreeName(taken, name);
      |r| >= |name| && r == Underscores(|r| - |name|) + name
      && forall j :: 0 <= j < |r| - |name| ==> Underscores(j) + name in taken
    decreases |taken|
  {
    if name in taken {
      var rest := taken - {name};
      var n1 := "_" + name;
      FreeNameIsFirstFree(rest, n1);
      var r := FreeName(rest, n1);
      var k := |r| - |n1|;
      assert r == Underscores(k) + n1;
      assert Underscores(k) + n1 == Underscores(k + 1) + name by {
        UnderscoresSnoc(k);
      }
      forall j | 0 <= j < |r| - |name|
        ensures Underscores(j) + name in taken
      {
        if j > 0 {
          UnderscoresSnoc(j - 1);
          assert Underscores(j - 1) + n1 == Underscores(j) + name;
          assert Underscores(j - 1) + n1 in rest;
        } else {
          assert Underscores(0) + name == name;
        }
      }
    }
  }

  lemma {:induction false} UnderscoresSnoc(k: nat)
    ensures Underscores(k) + "_" == Underscores(k + 1)
  {
    if k > 0 {
      UnderscoresSnoc(k - 1);
    }
  }

  /** A name is taken for good once it is handed out: with it added, the
      same request yields a longer name. */
  lemma FreeNameAfterUse(taken: set<string>, name: string)
    ensures FreeName(taken + {FreeName(taken, name)}, name) != FreeName(taken, name)
  {
  }

  /** Four requests for the same name in a row: `n`, `_n`, `__n`, `___n`. */
  lemma FreeNameSequence(n: string)
    ensures FreeName({}, n) == n
    ensures FreeName({n}, n) == "_" + n
    ensures FreeName({n, "_" + n}, n) == "__" + n
    ensures FreeName({n, "_" + n, "__" + n}, n) == "___" + n
  {
    assert {n} - {n} == {};
    assert {n, "_" + n} - {n} == {"_" + n};
    assert {"_" + n} - {"_" + n} == {};
    assert {n, "_" + n, "__" + n} - {n} == {"_" + n, "__" + n} by {
      assert n != "_" + n && n != "__" + n;
    }
    assert {"_" + n, "__" + n} - {"_" + n} == {"__" + n} by {
      assert "_" + n != "__" + n;
    }
    assert {"__" + n} - {"__" + n} == {};
    assert "_" + ("_" + n) == "__" + n;
    assert "_" + ("__" + n) == "___" + n;
  }
}
