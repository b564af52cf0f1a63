/** Local-variable naming scopes. A scope holds the names allocated in it
    and sees the names of its ancestors; only the innermost (current) scope
    allocates. The chain of scopes from the root to the current one is kept
    as a sequence of name sets, root first. */
module Scopes {
  import opened Wrappers
  import opened Unique

  /** The name reserved in every scope. */
  const RESERVED: string := "object"
  /** The name allocated when the desired name is empty. */
  const DEFAULT_NAME: string := "v"

  /** Every name in any of the scopes. */
  function AllNames(frames: seq<set<string>>): (r: set<string>)
    ensures forall i :: 0 <= i < |frames| ==> frames[i] <= r
    ensures forall x :: x in r ==> exists i :: 0 <= i < |frames| && x in frames[i]
  {
    if |frames| == 0 then {} else AllNames(frames[..|frames| - 1]) + frames[|frames| - 1]
  }

  /** The name `allocateName(desired)` hands out given the names in sight. */
  function Allocated(inSight: set<string>, desired: string): (r: string)
    ensures r !in inSight && |r| > 0
  {
    FreeName(inSight, if desired == "" then DEFAULT_NAME else desired)
  }

  class ScopeChain {
    /** The name sets of the scopes, from the root to the current one. */
    var frames: seq<set<string>>

    ghost predicate Valid()
      reads this
    {
      forall i :: 0 <= i < |frames| ==> RESERVED in frames[i]
    }

    /** A chain holding one fresh root scope. */
    constructor ()
      ensures Valid() && frames == [{RESERVED}]
    {
      frames := [{RESERVED}];
    }

    /** `isUsed(name)`: the name is in the current scope or an ancestor. */
    predicate IsUsed(name: string)
      reads this
      ensures IsUsed(name) <==> name in AllNames(frames)
    {
      exists i :: 0 <= i < |frames| && name in frames[i]
    }

    /** `allocateName(desired)`: the first `_`-prefixed form of the desired
        name (or of "v" when it is empty) unused in sight, recorded in the
        current scope only. There is no current scope once the root has been
        popped. */
    method AllocateName(desired: string) returns (r: Result<string>)
      requires Valid()
      modifies this
      ensures Valid()
      ensures |old(frames)| == 0 ==> r == Fail(NoSuchElement) && frames == old(frames)
      ensures |old(frames)| > 0 ==>
        r == Ok(Allocated(AllNames(old(frames)), desired))
        && frames == old(frames)[..|old(frames)| - 1] + [old(frames)[|old(frames)| - 1] + {r.value}]
    {
      if |frames| == 0 {
        return Fail(NoSuchElement);
      }
      var candidate := FirstUnused(if desired == "" then DEFAULT_NAME else desired);
      var last := |frames| - 1;
      frames := frames[..last] + [frames[last] + {candidate}];
      r := Ok(candidate);
    }

    /** The loop of `allocateName`: `_` is prepended while the name is used. */
    method FirstUnused(start: string) returns (candidate: string)
      ensures candidate == FreeName(AllNames(frames), start)
    {
      candidate := start;
      ghost var rest := AllNames(frames);
      while IsUsed(candidate)
        invariant |candidate| >= |start|
        invariant rest <= AllNames(frames)
        invariant forall x :: x in AllNames(frames) - rest ==> |x| < |candidate|
        invariant FreeName(rest, candidate) == FreeName(AllNames(frames), start)
        decreases |rest|
      {
        assert candidate in rest;
        rest := rest - {candidate};
        candidate := "_" + candidate;
      }
      assert candidate !in rest;
    }

    /** `pushScope()`: a new current scope, a child of the previous one.
        The parent is `scopes.last()`, which fails on an empty chain. */
    method PushScope() returns (r: Result<()>)
      requires Valid()
      modifies this
      ensures Valid()
      ensures |old(frames)| > 0 ==> r.Ok? && frames == old(frames) + [{RESERVED}]
      ensures |old(frames)| == 0 ==> r == Fail(NoSuchElement) && frames == old(frames)
    {
      if |frames| == 0 {
        return Fail(NoSuchElement);
      }
      frames := frames + [{RESERVED}];
      r := Ok(());
    }

    /** `popScope()`: drops the current scope; fails when there is none. */
    method PopScope() returns (r: Result<()>)
      requires Valid()
      modifies this
      ensures Valid()
      ensures |old(frames)| > 0 ==> r.Ok? && frames == old(frames)[..|old(frames)| - 1]
      ensures |old(frames)| == 0 ==> r == Fail(NoSuchElement) && frames == old(frames)
    {
      if |frames| == 0 {
        return Fail(NoSuchElement);
      }
      frames := frames[..|frames| - 1];
      r := Ok(());
    }

    /** `functionScope { ... }` whose body defines one local per desired name:
        the locals are allocated in a pushed scope, which is popped again.
        On an empty chain the push fails, and so does the pop in `finally`. */
    method FunctionScope(desired: seq<string>) returns (r: Result<seq<string>>)
      requires Valid()
      modifies this
      ensures Valid() && frames == old(frames)
      ensures |old(frames)| == 0 <==> r == Fail(NoSuchElement)
      ensures r.Ok? ==> |r.value| == |desired|
      ensures r.Ok? ==> forall i :: 0 <= i < |r.value| ==> r.value[i] !in AllNames(old(frames))
      ensures r.Ok? ==> forall i, j :: 0 <= i < j < |r.value| ==> r.value[i] != r.value[j]
    {
      var pushed := PushScope();
      if pushed.Fail? {
        return Fail(NoSuchElement);
      }
      var names := [];
      var i := 0;
      while i < |desired|
        invariant 0 <= i <= |desired| && |names| == i
        invariant Valid() && |frames| == |old(frames)| + 1
        invariant frames == old(frames) + [frames[|old(frames)|]]
        invariant forall k :: 0 <= k < i ==> names[k] in frames[|old(frames)|]
        invariant forall k :: 0 <= k < i ==> names[k] !in AllNames(old(frames))
        invariant forall k, j :: 0 <= k < j < i ==> names[k] != names[j]
      {
        ghost var cur := frames[|old(frames)|];
        AllNamesSnoc(old(frames), cur);
        var a := AllocateName(desired[i]);
        assert frames == old(frames) + [cur + {a.value}];
        names := names + [a.value];
        i := i + 1;
      }
      var _ := PopScope();
      assert frames == old(frames);
      r := Ok(names);
    }
  }

  lemma AllNamesSnoc(frames: seq<set<string>>, last: set<string>)
    ensures AllNames(frames + [last]) == AllNames(frames) + last
  {
    assert (frames + [last])[..|frames|] == frames;
  }

  /** A second request for "str" in the same function gets "_str"; an empty
      request gets "v". */
  lemma AllocationExamples()
    ensures Allocated({RESERVED}, "str") == "str"
    ensures Allocated({RESERVED, "str"}, "str") == "_str"
    ensures Allocated({RESERVED}, "") == "v"
    ensures Allocated({RESERVED}, RESERVED) == "_object"
  {
    assert {RESERVED, "str"} - {"str"} == {RESERVED};
    assert {RESERVED} - {RESERVED} == {};
  }
}
