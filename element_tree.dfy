/** The element trees the generator walks, both before resolution (the
    wrapped elements) and after it (the resolved elements): every element
    has an identity, its own data and an ordered list of children. The
    recursive walks over such a tree are modelled here on tree values. */
module ElementTrees {

  datatype Tree<D> = Node(id: nat, data: D, children: seq<Tree<D>>)

  /** A tree with the identities left out: what a copy must preserve. */
  datatype Shape<D> = ShapeNode(data: D, children: seq<Shape<D>>)

  function Size<D>(t: Tree<D>): nat {
    1 + SizeSum(t.children)
  }

  function SizeSum<D>(f: seq<Tree<D>>): nat {
    if |f| == 0 then 0 else Size(f[0]) + SizeSum(f[1..])
  }

  // ---------------------------------------------------------------------
  // recursiveSequence, forEachRecursive, filterRecursive

  /** An element followed by the walk of its children. */
  function PreorderOf<D>(t: Tree<D>): (r: seq<Tree<D>>)
    ensures |r| > 0 && r[0] == t
  {
    [t] + Preorder(t.children)
  }

  /** `recursiveSequence`: every element of the list, each followed by the
      walk of its own children. */
  function Preorder<D>(f: seq<Tree<D>>): seq<Tree<D>> {
    if |f| == 0 then [] else PreorderOf(f[0]) + Preorder(f[1..])
  }

  /** What `forEachRecursive` visits: every element below `t`, not `t`. */
  function Descendants<D>(t: Tree<D>): seq<Tree<D>> {
    Preorder(t.children)
  }

  /** The elements of `s` that pass `p`, in order. */
  function Filter<D>(s: seq<Tree<D>>, p: Tree<D> -> bool): (r: seq<Tree<D>>)
    ensures |r| <= |s|
  {
    if |s| == 0 then []
    else if p(s[0]) then [s[0]] + Filter(s[1..], p)
    else Filter(s[1..], p)
  }

  /** `Filter` keeps exactly the elements that pass. */
  lemma {:induction false} FilterMembers<D>(s: seq<Tree<D>>, p: Tree<D> -> bool, x: Tree<D>)
    ensures x in Filter(s, p) <==> x in s && p(x)
  {
    if |s| > 0 {
      FilterMembers(s[1..], p, x);
      assert x in s <==> x == s[0] || x in s[1..];
    }
  }

  lemma {:induction false} FilterAppend<D>(a: seq<Tree<D>>, b: seq<Tree<D>>, p: Tree<D> -> bool)
    ensures Filter(a + b, p) == Filter(a, p) + Filter(b, p)
  {
    if |a| > 0 {
      assert (a + b)[1..] == a[1..] + b;
      FilterAppend(a[1..], b, p);
    } else {
      assert a + b == b;
    }
  }

  lemma {:induction false} PreorderAppend<D>(a: seq<Tree<D>>, b: seq<Tree<D>>)
    ensures Preorder(a + b) == Preorder(a) + Preorder(b)
  {
    if |a| > 0 {
      assert (a + b)[1..] == a[1..] + b;
      PreorderAppend(a[1..], b);
    } else {
      assert a + b == b;
    }
  }

  lemma PreorderSnoc<D>(f: seq<Tree<D>>, i: nat)
    requires i < |f|
    ensures Preorder(f[..i + 1]) == Preorder(f[..i]) + PreorderOf(f[i])
  {
    assert f[..i + 1] == f[..i] + [f[i]];
    PreorderAppend(f[..i], [f[i]]);
    assert [f[i]][1..] == [];
  }

  lemma {:induction false} SizeSumAppend<D>(a: seq<Tree<D>>, b: seq<Tree<D>>)
    ensures SizeSum(a + b) == SizeSum(a) + SizeSum(b)
  {
    if |a| > 0 {
      assert (a + b)[1..] == a[1..] + b;
      SizeSumAppend(a[1..], b);
    } else {
      assert a + b == b;
    }
  }

  /** The walk lists every element exactly as often as the tree holds it. */
  lemma {:induction false} PreorderLength<D>(f: seq<Tree<D>>)
    ensures |Preorder(f)| == SizeSum(f)
    decreases f, 1
  {
    if |f| > 0 {
      PreorderOfLength(f[0]);
      PreorderLength(f[1..]);
    }
  }

  lemma {:induction false} PreorderOfLength<D>(t: Tree<D>)
    ensures |PreorderOf(t)| == Size(t)
    decreases t, 0
  {
    PreorderLength(t.children);
  }

  /** `recursiveSequence` is a preorder walk: an element comes first, and the
      walk of its k-th child is the slice that starts after the walks of the
      children before it. */
  lemma ChildWalkPosition<D>(t: Tree<D>, k: nat)
    requires k < |t.children|
    ensures var lo := 1 + SizeSum(t.children[..k]);
      PreorderOf(t)[0] == t &&
      lo + Size(t.children[k]) <= |PreorderOf(t)| &&
      PreorderOf(t)[lo..lo + Size(t.children[k])] == PreorderOf(t.children[k])
  {
    var cs := t.children;
    assert cs == cs[..k] + [cs[k]] + cs[k + 1..];
    PreorderAppend(cs[..k] + [cs[k]], cs[k + 1..]);
    PreorderAppend(cs[..k], [cs[k]]);
    assert [cs[k]][1..] == [];
    PreorderLength(cs[..k]);
    PreorderOfLength(cs[k]);
    var w := Preorder(cs[..k]) + PreorderOf(cs[k]) + Preorder(cs[k + 1..]);
    assert Preorder(cs) == w;
    assert PreorderOf(t) == [t] + w;
  }

  /** `forEachRecursive`: visits each child, then walks it; `visited` is the
      trace of elements handed to the callback so far. */
  method ForEachRecursive<D>(t: Tree<D>, visited: seq<Tree<D>>) returns (r: seq<Tree<D>>)
    ensures r == visited + Descendants(t)
    decreases t
  {
    r := visited;
    for i := 0 to |t.children|
      invariant r == visited + Preorder(t.children[..i])
    {
      var child := t.children[i];
      r := r + [child];
      r := ForEachRecursive(child, r);
      PreorderSnoc(t.children, i);
    }
    assert t.children[..|t.children|] == t.children;
  }

  /** `filterRecursive`: appends to `ret` every element below `t` that
      passes `p`, in the order of the walk. */
  method FilterRecursive<D>(t: Tree<D>, ret: seq<Tree<D>>, p: Tree<D> -> bool)
    returns (r: seq<Tree<D>>)
    ensures r == ret + Filter(Descendants(t), p)
    decreases t
  {
    r := ret;
    for i := 0 to |t.children|
      invariant r == ret + Filter(Preorder(t.children[..i]), p)
    {
      var child := t.children[i];
      if p(child) {
        r := r + [child];
      }
      r := FilterRecursive(child, r, p);
      FilterStep(t.children, i, p);
    }
    assert t.children[..|t.children|] == t.children;
  }

  lemma FilterStep<D>(cs: seq<Tree<D>>, i: nat, p: Tree<D> -> bool)
    requires i < |cs|
    ensures Filter(Preorder(cs[..i + 1]), p) ==
      Filter(Preorder(cs[..i]), p) + (if p(cs[i]) then [cs[i]] else []) + Filter(Descendants(cs[i]), p)
  {
    PreorderSnoc(cs, i);
    FilterAppend(Preorder(cs[..i]), PreorderOf(cs[i]), p);
    FilterAppend([cs[i]], Preorder(cs[i].children), p);
    assert Filter([cs[i]], p) == (if p(cs[i]) then [cs[i]] else []) by {
      assert [cs[i]][1..] == [];
    }
  }

  // ---------------------------------------------------------------------
  // Identities

  function Ids<D>(s: seq<Tree<D>>): set<nat> {
    set i | 0 <= i < |s| :: s[i].id
  }

  /** No two elements of the walk share an identity. */
  predicate UniqueIds<D>(s: seq<Tree<D>>) {
    forall i, j :: 0 <= i < j < |s| ==> IdAt(s, i) != IdAt(s, j)
  }

  function IdAt<D>(s: seq<Tree<D>>, i: nat): nat
    requires i < |s|
  {
    s[i].id
  }

  /** A walk with distinct identities visits each element once: the trace
      `forEachRecursive` leaves has no repeated element. */
  lemma VisitedOnce<D>(t: Tree<D>)
    requires UniqueIds(PreorderOf(t))
    ensures forall i, j :: 0 <= i < j < |Descendants(t)| ==> Descendants(t)[i] != Descendants(t)[j]
  {
    var r := Descendants(t);
    assert r == PreorderOf(t)[1..];
    forall i, j | 0 <= i < j < |r|
      ensures r[i] != r[j]
    {
      assert r[i].id == IdAt(PreorderOf(t), i + 1);
      assert r[j].id == IdAt(PreorderOf(t), j + 1);
    }
  }

  // ---------------------------------------------------------------------
  // setParents

  /** The parent links after visiting the first `k` children of the element
      `pid` (each child linked to `pid`, then its own subtree). */
  function LinkPrefix<D>(pid: nat, cs: seq<Tree<D>>, k: nat, m: map<nat, nat>): map<nat, nat>
    requires k <= |cs|
    decreases cs, k
  {
    if k == 0 then m
    else Link(cs[k - 1], LinkPrefix(pid, cs, k - 1, m)[cs[k - 1].id := pid])
  }

  /** `setParents` on `t`: every child's parent becomes its container, all
      the way down. */
  function Link<D>(t: Tree<D>, m: map<nat, nat>): map<nat, nat>
    decreases t
  {
    LinkPrefix(t.id, t.children, |t.children|, m)
  }

  /** `setParents` as the loop the source runs. */
  method SetParents<D>(t: Tree<D>, parents: map<nat, nat>) returns (r: map<nat, nat>)
    ensures r == Link(t, parents)
    decreases t
  {
    r := parents;
    for i := 0 to |t.children|
      invariant r == LinkPrefix(t.id, t.children, i, parents)
    {
      var child := t.children[i];
      r := r[child.id := t.id];
      r := SetParents(child, r);
    }
  }

  /** Linking a subtree only writes the identities of its descendants. */
  lemma {:induction false} LinkFrame<D>(t: Tree<D>, m: map<nat, nat>)
    ensures Link(t, m).Keys == m.Keys + Ids(Descendants(t))
    ensures forall x :: x in m && x !in Ids(Descendants(t)) ==> Link(t, m)[x] == m[x]
    decreases t, 1
  {
    LinkPrefixFrame(t.id, t.children, |t.children|, m);
    assert t.children[..|t.children|] == t.children;
  }

  lemma {:induction false} LinkPrefixFrame<D>(pid: nat, cs: seq<Tree<D>>, k: nat, m: map<nat, nat>)
    requires k <= |cs|
    ensures LinkPrefix(pid, cs, k, m).Keys == m.Keys + Ids(Preorder(cs[..k]))
    ensures forall x :: x in m && x !in Ids(Preorder(cs[..k])) ==> LinkPrefix(pid, cs, k, m)[x] == m[x]
    decreases cs, k
  {
    if k > 0 {
      var c := cs[k - 1];
      var before := LinkPrefix(pid, cs, k - 1, m);
      LinkPrefixFrame(pid, cs, k - 1, m);
      LinkFrame(c, before[c.id := pid]);
      PreorderSnoc(cs, k - 1);
      IdsAppend(Preorder(cs[..k - 1]), PreorderOf(c));
      IdsAppend([c], Preorder(c.children));
    }
  }

  lemma IdsAppend<D>(a: seq<Tree<D>>, b: seq<Tree<D>>)
    ensures Ids(a + b) == Ids(a) + Ids(b)
  {
    forall x | x in Ids(a + b) ensures x in Ids(a) + Ids(b) {
      var i :| 0 <= i < |a + b| && (a + b)[i].id == x;
      if i >= |a| { assert b[i - |a|].id == x; }
    }
    forall x | x in Ids(a) + Ids(b) ensures x in Ids(a + b) {
      if x in Ids(a) {
        var i :| 0 <= i < |a| && a[i].id == x;
        assert (a + b)[i].id == x;
      } else {
        var i :| 0 <= i < |b| && b[i].id == x;
        assert (a + b)[|a| + i].id == x;
      }
    }
  }

  /** A child of an element somewhere in the walk of `t`. */
  ghost predicate ParentOf<D>(t: Tree<D>, n: Tree<D>, c: Tree<D>) {
    n in PreorderOf(t) && c in n.children
  }

  /** After `setParents` on a tree whose identities are distinct, every
      element's parent link names its container. */
  lemma {:induction false} LinksNameContainers<D>(t: Tree<D>, m: map<nat, nat>, n: Tree<D>, c: Tree<D>)
    requires UniqueIds(PreorderOf(t))
    requires ParentOf(t, n, c)
    ensures c.id in Link(t, m) && Link(t, m)[c.id] == n.id
    decreases t
  {
    var cs := t.children;
    if n == t {
      var k :| 0 <= k < |cs| && cs[k] == c;
      LinkChildLink(t, m, k);
    } else {
      // n lies in the walk of one child
      assert n in Preorder(cs);
      var k := ChildHolding(cs, n);
      UniqueSub(t, k);
      LinksNameContainers(cs[k], LinkPrefix(t.id, cs, k, m)[cs[k].id := t.id], n, c);
      ChildInWalk(cs[k], n, c);
      InIds(PreorderOf(cs[k]), c);
      LaterChildrenKeep(t, m, k, c.id);
    }
  }

  /** A child of an element of the walk is in the walk too. */
  lemma {:induction false} ChildInWalk<D>(t: Tree<D>, n: Tree<D>, c: Tree<D>)
    requires ParentOf(t, n, c)
    ensures c in PreorderOf(t)
    decreases t
  {
    var cs := t.children;
    if n == t {
      var k :| 0 <= k < |cs| && cs[k] == c;
      ChildWalkPosition(t, k);
      var lo := 1 + SizeSum(cs[..k]);
      assert PreorderOf(t)[lo] == c;
    } else {
      assert n in Preorder(cs);
      var k := ChildHolding(cs, n);
      ChildInWalk(cs[k], n, c);
      ChildWalkPosition(t, k);
      var lo := 1 + SizeSum(cs[..k]);
      var i :| 0 <= i < |PreorderOf(cs[k])| && PreorderOf(cs[k])[i] == c;
      assert PreorderOf(t)[lo + i] == c;
    }
  }

  lemma InIds<D>(s: seq<Tree<D>>, x: Tree<D>)
    requires x in s
    ensures x.id in Ids(s)
  {
    var i :| 0 <= i < |s| && s[i] == x;
  }

  /** The child of `t` at `k` gets `t` as its parent, and later children do
      not overwrite it. */
  lemma LinkChildLink<D>(t: Tree<D>, m: map<nat, nat>, k: nat)
    requires UniqueIds(PreorderOf(t))
    requires k < |t.children|
    ensures t.children[k].id in Link(t, m) && Link(t, m)[t.children[k].id] == t.id
  {
    var cs := t.children;
    var c := cs[k];
    var before := LinkPrefix(t.id, cs, k, m)[c.id := t.id];
    LinkFrame(c, before);
    IdNotBelowItself(t, k);
    assert Link(c, before)[c.id] == t.id;
    assert LinkPrefix(t.id, cs, k + 1, m) == Link(c, before);
    LaterChildrenKeep(t, m, k, c.id);
  }

  /** The walks of the children after `k` do not touch an identity held in
      the walk of child `k`. */
  lemma LaterChildrenKeep<D>(t: Tree<D>, m: map<nat, nat>, k: nat, x: nat)
    requires UniqueIds(PreorderOf(t))
    requires k < |t.children|
    requires x in Ids(PreorderOf(t.children[k]))
    requires x in LinkPrefix(t.id, t.children, k + 1, m)
    ensures x in Link(t, m) && Link(t, m)[x] == LinkPrefix(t.id, t.children, k + 1, m)[x]
  {
    var cs := t.children;
    var n := |cs|;
    var mid := LinkPrefix(t.id, cs, k + 1, m);
    LaterKeepFrom(t, m, k, x, n);
    assert cs[..n] == cs;
  }

  lemma {:induction false} LaterKeepFrom<D>(t: Tree<D>, m: map<nat, nat>, k: nat, x: nat, j: nat)
    requires UniqueIds(PreorderOf(t))
    requires k < j <= |t.children|
    requires x in Ids(PreorderOf(t.children[k]))
    requires x in LinkPrefix(t.id, t.children, k + 1, m)
    ensures x in LinkPrefix(t.id, t.children, j, m)
    ensures LinkPrefix(t.id, t.children, j, m)[x] == LinkPrefix(t.id, t.children, k + 1, m)[x]
    decreases j
  {
    if j > k + 1 {
      LaterKeepFrom(t, m, k, x, j - 1);
      var cs := t.children;
      var c := cs[j - 1];
      var before := LinkPrefix(t.id, cs, j - 1, m);
      DisjointChildren(t, k, j - 1, x);
      LinkFrame(c, before[c.id := t.id]);
    }
  }

  lemma UniqueSlice<D>(p: seq<Tree<D>>, lo: nat, hi: nat)
    requires UniqueIds(p) && lo <= hi <= |p|
    ensures UniqueIds(p[lo..hi])
  {
    var w := p[lo..hi];
    forall i, j | 0 <= i < j < |w| ensures IdAt(w, i) != IdAt(w, j) {
      assert IdAt(w, i) == IdAt(p, lo + i) && IdAt(w, j) == IdAt(p, lo + j);
    }
  }

  /** Two walks that sit apart inside a walk with distinct identities
      share no identity. */
  lemma DisjointWalks<D>(p: seq<Tree<D>>, wa: seq<Tree<D>>, wb: seq<Tree<D>>,
                         loA: nat, hiA: nat, loB: nat, hiB: nat, x: nat)
    requires UniqueIds(p) && loA <= hiA <= loB <= hiB <= |p|
    requires p[loA..hiA] == wa && p[loB..hiB] == wb
    requires x in Ids(wa)
    ensures x !in Ids(wb)
  {
    var i :| 0 <= i < |wa| && wa[i].id == x;
    assert IdAt(p, loA + i) == x;
    forall j | 0 <= j < |wb| ensures wb[j].id != x {
      assert wb[j].id == IdAt(p, loB + j);
    }
  }

  /** The identities of an element's walk: its own and those below it. */
  lemma IdsOfWalk<D>(t: Tree<D>)
    ensures Ids(PreorderOf(t)) == {t.id} + Ids(Descendants(t))
  {
    IdsAppend([t], Descendants(t));
    IdsOne(t);
  }

  lemma IdsOne<D>(t: Tree<D>)
    ensures Ids([t]) == {t.id}
  {
    assert [t][0].id == t.id;
  }

  /** The walk of child `a` ends before the walk of a later child `b` starts. */
  lemma ChildrenApart<D>(cs: seq<Tree<D>>, a: nat, b: nat)
    requires a < b <= |cs|
    ensures SizeSum(cs[..a]) + Size(cs[a]) <= SizeSum(cs[..b])
  {
    assert cs[..b] == cs[..a] + cs[a..b];
    SizeSumAppend(cs[..a], cs[a..b]);
    assert cs[a..b] == [cs[a]] + cs[a + 1..b];
    SizeSumAppend([cs[a]], cs[a + 1..b]);
    assert [cs[a]][1..] == [];
  }

  /** Identities in the walks of two different children are different. */
  lemma DisjointChildren<D>(t: Tree<D>, a: nat, b: nat, x: nat)
    requires UniqueIds(PreorderOf(t))
    requires a < b < |t.children|
    requires x in Ids(PreorderOf(t.children[a]))
    ensures x != t.children[b].id && x !in Ids(Descendants(t.children[b]))
  {
    var cs := t.children;
    var loA, hiA, loB, hiB := ChildSlices(t, a, b);
    DisjointWalks(PreorderOf(t), PreorderOf(cs[a]), PreorderOf(cs[b]), loA, hiA, loB, hiB, x);
    IdsOfWalk(cs[b]);
  }

  /** Where the walks of children `a < b` sit in the walk of `t`. */
  lemma ChildSlices<D>(t: Tree<D>, a: nat, b: nat) returns (loA: nat, hiA: nat, loB: nat, hiB: nat)
    requires a < b < |t.children|
    ensures loA <= hiA <= loB <= hiB <= |PreorderOf(t)|
    ensures PreorderOf(t)[loA..hiA] == PreorderOf(t.children[a])
    ensures PreorderOf(t)[loB..hiB] == PreorderOf(t.children[b])
  {
    var cs := t.children;
    ChildWalkPosition(t, a);
    ChildWalkPosition(t, b);
    ChildrenApart(cs, a, b);
    loA := 1 + SizeSum(cs[..a]);
    hiA := loA + Size(cs[a]);
    loB := 1 + SizeSum(cs[..b]);
    hiB := loB + Size(cs[b]);
  }

  /** A child's identity does not reappear below it. */
  lemma IdNotBelowItself<D>(t: Tree<D>, k: nat)
    requires UniqueIds(PreorderOf(t))
    requires k < |t.children|
    ensures t.children[k].id !in Ids(Descendants(t.children[k]))
  {
    var c := t.children[k];
    UniqueSub(t, k);
    var w := PreorderOf(c);
    assert w[1..] == Descendants(c);
    HeadUnique(w);
  }

  lemma HeadUnique<D>(w: seq<Tree<D>>)
    requires UniqueIds(w) && |w| > 0
    ensures w[0].id !in Ids(w[1..])
  {
    forall j | 0 <= j < |w| - 1 ensures w[1..][j].id != w[0].id {
      assert w[1..][j].id == IdAt(w, j + 1) && w[0].id == IdAt(w, 0);
    }
  }

  /** A subtree of a tree with distinct identities has distinct identities. */
  lemma UniqueSub<D>(t: Tree<D>, k: nat)
    requires UniqueIds(PreorderOf(t))
    requires k < |t.children|
    ensures UniqueIds(PreorderOf(t.children[k]))
  {
    var lo, hi := ChildSlice(t, k);
    UniqueSlice(PreorderOf(t), lo, hi);
  }

  /** Where the walk of child `k` sits in the walk of `t`. */
  lemma ChildSlice<D>(t: Tree<D>, k: nat) returns (lo: nat, hi: nat)
    requires k < |t.children|
    ensures lo <= hi <= |PreorderOf(t)|
    ensures PreorderOf(t)[lo..hi] == PreorderOf(t.children[k])
  {
    ChildWalkPosition(t, k);
    lo := 1 + SizeSum(t.children[..k]);
    hi := lo + Size(t.children[k]);
  }

  /** The child whose walk holds an element below `t`. */
  lemma {:induction false} ChildHolding<D>(cs: seq<Tree<D>>, n: Tree<D>) returns (k: nat)
    requires n in Preorder(cs)
    ensures k < |cs| && n in PreorderOf(cs[k])
  {
    if n in PreorderOf(cs[0]) {
      k := 0;
    } else {
      var rest := ChildHolding(cs[1..], n);
      k := rest + 1;
    }
  }

  // ---------------------------------------------------------------------
  // clone

  function ShapeOf<D>(t: Tree<D>): Shape<D> {
    ShapeNode(t.data, ShapesOf(t.children))
  }

  function ShapesOf<D>(f: seq<Tree<D>>): seq<Shape<D>> {
    if |f| == 0 then [] else [ShapeOf(f[0])] + ShapesOf(f[1..])
  }

  /** `clone`: a copy of the element and, recursively, of its children; the
      copies are new elements, numbered from `next`. */
  function Clone<D>(t: Tree<D>, next: nat): (r: (Tree<D>, nat))
    ensures r.0.id == next && r.0.data == t.data && |r.0.children| == |t.children|
    ensures r.1 > next
    decreases t
  {
    var kids := CloneAll(t.children, next + 1);
    (Node(next, t.data, kids.0), kids.1)
  }

  function CloneAll<D>(f: seq<Tree<D>>, next: nat): (r: (seq<Tree<D>>, nat))
    ensures |r.0| == |f| && r.1 >= next
    decreases f
  {
    if |f| == 0 then ([], next)
    else
      var head := Clone(f[0], next);
      var tail := CloneAll(f[1..], head.1);
      ([head.0] + tail.0, tail.1)
  }

  /** A clone has the shape and data of the original, uses exactly the
      identities `next .. next + Size(t) - 1`, and gives every copy its own
      identity. */
  lemma {:induction false} CloneShape<D>(t: Tree<D>, next: nat)
    ensures var r := Clone(t, next);
      ShapeOf(r.0) == ShapeOf(t) && r.1 == next + Size(t) &&
      (forall x :: x in Ids(PreorderOf(r.0)) <==> next <= x < r.1) &&
      UniqueIds(PreorderOf(r.0))
    decreases t, 1
  {
    var kids := CloneAll(t.children, next + 1);
    CloneAllShape(t.children, next + 1);
    var r := Clone(t, next);
    assert PreorderOf(r.0) == [r.0] + Preorder(kids.0);
    IdsAppend([r.0], Preorder(kids.0));
    var p := PreorderOf(r.0);
    var q := Preorder(kids.0);
    forall i, j | 0 <= i < j < |p| ensures IdAt(p, i) != IdAt(p, j) {
      if i == 0 {
        assert p[j] == q[j - 1];
        assert p[j].id in Ids(q);
      } else {
        assert IdAt(p, i) == IdAt(q, i - 1) && IdAt(p, j) == IdAt(q, j - 1);
      }
    }
  }

  lemma {:induction false} CloneAllShape<D>(f: seq<Tree<D>>, next: nat)
    ensures var r := CloneAll(f, next);
      ShapesOf(r.0) == ShapesOf(f) && r.1 == next + SizeSum(f) &&
      (forall x :: x in Ids(Preorder(r.0)) <==> next <= x < r.1) &&
      UniqueIds(Preorder(r.0))
    decreases f, 0
  {
    if |f| > 0 {
      var head := Clone(f[0], next);
      var tail := CloneAll(f[1..], head.1);
      CloneShape(f[0], next);
      CloneAllShape(f[1..], head.1);
      var r := CloneAll(f, next);
      assert r.0 == [head.0] + tail.0;
      assert r.0[1..] == tail.0;
      assert Preorder(r.0) == PreorderOf(head.0) + Preorder(tail.0);
      IdsAppend(PreorderOf(head.0), Preorder(tail.0));
      var a := PreorderOf(head.0);
      var b := Preorder(tail.0);
      var p := Preorder(r.0);
      forall i, j | 0 <= i < j < |p| ensures IdAt(p, i) != IdAt(p, j) {
        if j < |a| {
          assert IdAt(p, i) == IdAt(a, i) && IdAt(p, j) == IdAt(a, j);
        } else if i >= |a| {
          assert IdAt(p, i) == IdAt(b, i - |a|) && IdAt(p, j) == IdAt(b, j - |a|);
        } else {
          assert p[i] == a[i] && p[j] == b[j - |a|];
          assert p[i].id in Ids(a);
          assert p[j].id in Ids(b);
        }
      }
    } else {
      assert Preorder(CloneAll(f, next).0) == [];
    }
  }
}
