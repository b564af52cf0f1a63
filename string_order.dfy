/** Kotlin's natural order on strings (`String.compareTo`): character by
    character, a proper prefix before the longer string; and the sorted,
    duplicate-free sequence of a collection (`toSet().sorted()`). */
module StringOrder {

  predicate Less(a: string, b: string)
    decreases |a|
  {
    if |a| == 0 then |b| > 0
    else |b| > 0 && (a[0] < b[0] || (a[0] == b[0] && Less(a[1..], b[1..])))
  }

  lemma {:induction false} LessIrreflexive(a: string)
    ensures !Less(a, a)
    decreases |a|
  {
    if |a| > 0 {
      LessIrreflexive(a[1..]);
    }
  }

  lemma {:induction false} LessTransitive(a: string, b: string, c: string)
    requires Less(a, b) && Less(b, c)
    ensures Less(a, c)
    decreases |a|
  {
    if |a| > 0 && a[0] == b[0] && b[0] == c[0] {
      LessTransitive(a[1..], b[1..], c[1..]);
    }
  }

  lemma {:induction false} LessTotal(a: string, b: string)
    ensures a == b || Less(a, b) || Less(b, a)
    decreases |a|
  {
    if |a| > 0 && |b| > 0 && a[0] == b[0] {
      LessTotal(a[1..], b[1..]);
      if a[1..] == b[1..] {
        assert a == [a[0]] + a[1..] && b == [b[0]] + b[1..];
      }
    }
  }

  lemma LessAsymmetric(a: string, b: string)
    requires Less(a, b)
    ensures !Less(b, a) && a != b
  {
    if Less(b, a) {
      LessTransitive(a, b, a);
      LessIrreflexive(a);
    }
    LessIrreflexive(a);
  }

  predicate StrictlySorted(r: seq<string>) {
    forall i, j :: 0 <= i < j < |r| ==> Less(r[i], r[j])
  }

  /** `x` put in its place in a sorted sequence; nothing happens when it is
      already there. */
  function Insert(r: seq<string>, x: string): (res: seq<string>)
    requires StrictlySorted(r)
    ensures StrictlySorted(res)
    ensures forall y :: y in res <==> y in r || y == x
    decreases |r|
  {
    if |r| == 0 then [x]
    else if x == r[0] then r
    else if Less(x, r[0]) then
      assert StrictlySorted([x] + r) by {
        forall j | 0 <= j < |r|
          ensures Less(x, r[j])
        {
          if j > 0 {
            LessTransitive(x, r[0], r[j]);
          }
        }
        forall i, j | 0 <= i < j < |r| + 1
          ensures Less(([x] + r)[i], ([x] + r)[j])
        {
          if i > 0 {
            assert ([x] + r)[i] == r[i - 1];
          }
        }
      }
      [x] + r
    else
      var tail := Insert(r[1..], x);
      assert Less(r[0], x) by { LessTotal(x, r[0]); }
      assert forall y :: y in tail ==> Less(r[0], y) by {
        forall y | y in tail
          ensures Less(r[0], y)
        {
          if y != x {
            var j :| 0 <= j < |r[1..]| && r[1..][j] == y;
            assert r[j + 1] == y;
          }
        }
      }
      assert StrictlySorted([r[0]] + tail) by {
        forall i, j | 0 <= i < j < |tail| + 1
          ensures Less(([r[0]] + tail)[i], ([r[0]] + tail)[j])
        {
          if i == 0 {
            assert tail[j - 1] in tail;
          }
        }
      }
      [r[0]] + tail
  }

  /** `toSet().sorted()`: the distinct elements of `names` in order. */
  function SortedDistinct(names: seq<string>): (r: seq<string>)
    ensures StrictlySorted(r)
    ensures forall y :: y in r <==> y in names
    decreases |names|
  {
    if |names| == 0 then []
    else
      var init := SortedDistinct(names[..|names| - 1]);
      assert forall y :: y in names <==> y in names[..|names| - 1] || y == names[|names| - 1] by {
        assert names == names[..|names| - 1] + [names[|names| - 1]];
      }
      Insert(init, names[|names| - 1])
  }

  lemma HeadIn(s: seq<string>)
    requires |s| > 0
    ensures s[0] in s
  {
  }

  /** A sorted sequence without duplicates is determined by its elements:
      `sorted()` of a set does not depend on the order it was collected in. */
  lemma {:induction false} SortedUnique(a: seq<string>, b: seq<string>)
    requires StrictlySorted(a) && StrictlySorted(b)
    requires forall y :: y in a <==> y in b
    ensures a == b
    decreases |a|
  {
    if |a| == 0 || |b| == 0 {
      if |a| > 0 {
        HeadIn(a);
        assert false;
      } else if |b| > 0 {
        HeadIn(b);
        assert false;
      }
    } else {
      assert a[0] in b && b[0] in a;
      if a[0] != b[0] {
        var i :| 0 <= i < |b| && b[i] == a[0];
        var j :| 0 <= j < |a| && a[j] == b[0];
        assert i > 0 && j > 0;
        assert Less(b[0], a[0]) && Less(a[0], b[0]);
        LessAsymmetric(a[0], b[0]);
      }
      forall y
        ensures y in a[1..] <==> y in b[1..]
      {
        if y in a[1..] {
          var k :| 1 <= k < |a| && a[k] == y;
          assert Less(a[0], y);
          LessAsymmetric(a[0], y);
          assert y in b;
          assert y != b[0];
        }
        if y in b[1..] {
          var k :| 1 <= k < |b| && b[k] == y;
          assert Less(b[0], y);
          LessAsymmetric(b[0], y);
          assert y in a;
          assert y != a[0];
        }
      }
      SortedUnique(a[1..], b[1..]);
      assert a == [a[0]] + a[1..] && b == [b[0]] + b[1..];
    }
  }

  lemma SortedDistinctExample()
    ensures SortedDistinct(["b", "a", "b"]) == ["a", "b"]
  {
    var r := SortedDistinct(["b", "a", "b"]);
    assert Less("a", "b");
    SortedUnique(r, ["a", "b"]);
  }
}
