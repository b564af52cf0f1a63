/** Keeping the first element per signature. Elements without a signature
    (`key` gives `None`) are never removed. Removal from a list goes by
    identity: `list.remove(x)` drops the first element equal to `x`. */
module Dedup {
  import opened Wrappers

  /** `list.remove(x)`: the first occurrence of `x` goes, if there is one. */
  function RemoveOne<T(==)>(cs: seq<T>, x: T): (r: seq<T>)
    ensures x !in cs ==> r == cs
    ensures x in cs ==> |r| == |cs| - 1
    ensures forall y :: y in r ==> y in cs
  {
    if |cs| == 0 then []
    else if cs[0] == x then cs[1..]
    else [cs[0]] + RemoveOne(cs[1..], x)
  }

  /** `xs.forEach { list.remove(it) }`. */
  function RemoveEach<T(==)>(cs: seq<T>, xs: seq<T>): (r: seq<T>)
    decreases |xs|
    ensures forall y :: y in r ==> y in cs
  {
    if |xs| == 0 then cs else RemoveEach(RemoveOne(cs, xs[0]), xs[1..])
  }

  /** The signatures of the keyed elements of `cs`. */
  function Seen<T>(cs: seq<T>, key: T -> Option<string>): (r: set<string>)
    ensures forall i :: 0 <= i < |cs| && key(cs[i]).Some? ==> key(cs[i]).value in r
  {
    if |cs| == 0 then {}
    else Seen(cs[..|cs| - 1], key) + (var k := key(cs[|cs| - 1]); if k.Some? then {k.value} else {})
  }

  /** Whether `c` comes too late: it is keyed and its signature was seen
      among the earlier elements. */
  predicate Repeats<T>(earlier: seq<T>, c: T, key: T -> Option<string>) {
    key(c).Some? && key(c).value in Seen(earlier, key)
  }

  /** The elements a single pass with a `seen` set removes, in order. */
  function Dropped<T>(cs: seq<T>, key: T -> Option<string>): (r: seq<T>)
    ensures forall y :: y in r ==> y in cs
  {
    if |cs| == 0 then []
    else
      var init := cs[..|cs| - 1];
      var c := cs[|cs| - 1];
      Dropped(init, key) + (if Repeats(init, c, key) then [c] else [])
  }

  /** The elements that stay: each unkeyed element, and each keyed element
      whose signature no earlier element has. */
  function Kept<T>(cs: seq<T>, key: T -> Option<string>): (r: seq<T>)
    ensures forall y :: y in r ==> y in cs
    ensures |r| <= |cs|
  {
    if |cs| == 0 then []
    else
      var init := cs[..|cs| - 1];
      var c := cs[|cs| - 1];
      Kept(init, key) + (if Repeats(init, c, key) then [] else [c])
  }

  /** The unkeyed elements of `cs`, in order. */
  function Unkeyed<T>(cs: seq<T>, key: T -> Option<string>): seq<T> {
    if |cs| == 0 then []
    else
      var c := cs[|cs| - 1];
      Unkeyed(cs[..|cs| - 1], key) + (if key(c).None? then [c] else [])
  }

  predicate Distinct<T(==)>(cs: seq<T>) {
    forall i, j :: 0 <= i < j < |cs| ==> cs[i] != cs[j]
  }

  /** No two keyed elements share a signature. */
  predicate SignaturesUnique<T>(cs: seq<T>, key: T -> Option<string>) {
    forall i, j :: 0 <= i < j < |cs| && key(cs[i]).Some? && key(cs[j]).Some? ==> key(cs[i]) != key(cs[j])
  }

  // ---------------------------------------------------------------------
  // Removal by identity

  lemma {:induction false} RemoveOneSnoc<T>(a: seq<T>, c: T, x: T)
    requires x != c
    ensures RemoveOne(a + [c], x) == RemoveOne(a, x) + [c]
    decreases |a|
  {
    if |a| == 0 {
    } else if a[0] == x {
      assert (a + [c])[1..] == a[1..] + [c];
    } else {
      assert (a + [c])[1..] == a[1..] + [c];
      RemoveOneSnoc(a[1..], c, x);
    }
  }

  lemma {:induction false} RemoveEachSnoc<T>(a: seq<T>, c: T, xs: seq<T>)
    requires c !in xs
    ensures RemoveEach(a + [c], xs) == RemoveEach(a, xs) + [c]
    decreases |xs|
  {
    if |xs| > 0 {
      RemoveOneSnoc(a, c, xs[0]);
      RemoveEachSnoc(RemoveOne(a, xs[0]), c, xs[1..]);
    }
  }

  /** Removing one more element after a run of removals. */
  lemma {:induction false} RemoveEachAppend<T>(cs: seq<T>, xs: seq<T>, x: T)
    ensures RemoveEach(cs, xs + [x]) == RemoveOne(RemoveEach(cs, xs), x)
    decreases |xs|
  {
    if |xs| > 0 {
      assert (xs + [x])[1..] == xs[1..] + [x];
      RemoveEachAppend(RemoveOne(cs, xs[0]), xs[1..], x);
    }
  }

  lemma {:induction false} RemoveOneLast<T>(a: seq<T>, c: T)
    requires c !in a
    ensures RemoveOne(a + [c], c) == a
    decreases |a|
  {
    if |a| == 0 {
      assert (a + [c])[0] == c;
    } else {
      assert (a + [c])[1..] == a[1..] + [c];
      RemoveOneLast(a[1..], c);
      assert [a[0]] + a[1..] == a;
    }
  }

  /** When the list's elements are distinct objects, the single pass that
      removes every later element with an already-seen signature leaves
      exactly the first element per signature and every unkeyed element. */
  lemma {:induction false} RemovingDroppedKeepsFirst<T>(cs: seq<T>, key: T -> Option<string>)
    requires Distinct(cs)
    ensures RemoveEach(cs, Dropped(cs, key)) == Kept(cs, key)
    decreases |cs|
  {
    if |cs| > 0 {
      var init := cs[..|cs| - 1];
      var c := cs[|cs| - 1];
      assert cs == init + [c];
      DistinctParts(cs);
      RemovingDroppedKeepsFirst(init, key);
      var d := Dropped(init, key);
      var k := Kept(init, key);
      KeptOne(init, c, key);
      RemoveEachSnoc(init, c, d);
      if Repeats(init, c, key) {
        assert Dropped(cs, key) == d + [c];
        RemoveEachAppend(cs, d, c);
        assert c !in k;
        RemoveOneLast(k, c);
        calc {
          RemoveEach(cs, Dropped(cs, key));
          RemoveOne(RemoveEach(init + [c], d), c);
          RemoveOne(k + [c], c);
          k;
          { assert k + [] == k; }
          Kept(cs, key);
        }
      } else {
        assert Dropped(cs, key) == d + [];
        assert d + [] == d;
      }
    }
  }

  lemma DistinctParts<T>(cs: seq<T>)
    requires Distinct(cs) && |cs| > 0
    ensures Distinct(cs[..|cs| - 1]) && cs[|cs| - 1] !in cs[..|cs| - 1]
  {
  }

  // ---------------------------------------------------------------------
  // What the kept list holds

  /** Every unkeyed element stays, in its order. */
  lemma {:induction false} KeptKeepsUnkeyed<T>(cs: seq<T>, key: T -> Option<string>)
    ensures Unkeyed(Kept(cs, key), key) == Unkeyed(cs, key)
    decreases |cs|
  {
    if |cs| > 0 {
      var init := cs[..|cs| - 1];
      var c := cs[|cs| - 1];
      KeptKeepsUnkeyed(init, key);
      UnkeyedAppend(Kept(init, key), if Repeats(init, c, key) then [] else [c], key);
    }
  }

  lemma {:induction false} UnkeyedAppend<T>(a: seq<T>, b: seq<T>, key: T -> Option<string>)
    requires |b| <= 1
    ensures Unkeyed(a + b, key) == Unkeyed(a, key) + Unkeyed(b, key)
  {
    if |b| == 1 {
      assert (a + b)[..|a + b| - 1] == a;
      assert b[..0] == [];
    } else {
      assert a + b == a;
    }
  }

  lemma SeenSnoc<T>(a: seq<T>, c: T, key: T -> Option<string>)
    ensures Seen(a + [c], key) == Seen(a, key) + (if key(c).Some? then {key(c).value} else {})
  {
    assert (a + [c])[..|a + [c]| - 1] == a;
  }

  /** Every signature present before is still present: the first element
      carrying it is kept. */
  lemma {:induction false} KeptKeepsSignatures<T>(cs: seq<T>, key: T -> Option<string>)
    ensures Seen(Kept(cs, key), key) == Seen(cs, key)
    decreases |cs|
  {
    if |cs| > 0 {
      var init := cs[..|cs| - 1];
      var c := cs[|cs| - 1];
      KeptKeepsSignatures(init, key);
      if Repeats(init, c, key) {
        assert Kept(cs, key) == Kept(init, key);
      } else {
        SeenSnoc(Kept(init, key), c, key);
      }
    }
  }

  /** No signature is carried twice after the pass. */
  lemma {:induction false} KeptSignaturesUnique<T>(cs: seq<T>, key: T -> Option<string>)
    ensures SignaturesUnique(Kept(cs, key), key)
    decreases |cs|
  {
    if |cs| > 0 {
      var init := cs[..|cs| - 1];
      var c := cs[|cs| - 1];
      KeptSignaturesUnique(init, key);
      if !Repeats(init, c, key) {
        var k := Kept(init, key);
        KeptKeepsSignatures(init, key);
        var r := k + [c];
        forall i, j | 0 <= i < j < |r| && key(r[i]).Some? && key(r[j]).Some?
          ensures key(r[i]) != key(r[j])
        {
          if j == |k| {
            assert r[i] == k[i];
            assert key(k[i]).value in Seen(k, key);
          } else {
            assert r[i] == k[i] && r[j] == k[j];
          }
        }
      }
    }
  }

  /** A keyed element is dropped exactly when an earlier element carries
      its signature. */
  lemma KeptOne<T>(cs: seq<T>, c: T, key: T -> Option<string>)
    ensures Kept(cs + [c], key) == Kept(cs, key) + (if Repeats(cs, c, key) then [] else [c])
    ensures Dropped(cs + [c], key) == Dropped(cs, key) + (if Repeats(cs, c, key) then [c] else [])
  {
    assert (cs + [c])[..|cs + [c]| - 1] == cs;
  }
}
