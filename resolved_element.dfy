/** The bookkeeping of one resolved element: its ordered children, the
    parent link that adding a child sets, and the resolved class's cached
    answer to "does this class generate anything". */
module ResolvedElements {
  import opened Wrappers
  import opened Methods

  /** What the emptiness test looks at: a class and whether it has a base
      class, a method and its type (a constructor is a method of type
      `CONSTRUCTOR`), or any other element. */
  datatype ResolvedKind =
    | ClassElement(hasBaseClass: bool)
    | MethodElement(methodType: MethodType)
    | OtherElement

  /** The position of the first element whose `key` is `k`, or `|cs|`. */
  function FirstWithKey(cs: seq<ResolvedElement>, k: nat): (r: nat)
    ensures r <= |cs|
    ensures r < |cs| ==> cs[r].key == k
    ensures forall i :: 0 <= i < r ==> cs[i].key != k
  {
    if |cs| == 0 then 0
    else if cs[0].key == k then 0
    else 1 + FirstWithKey(cs[1..], k)
  }

  /** `children.contains(x)`. */
  predicate HasKey(cs: seq<ResolvedElement>, k: nat) {
    FirstWithKey(cs, k) < |cs|
  }

  /** `list.remove(x)`: drops the first element equal to `x`, if any. */
  function RemoveFirst(cs: seq<ResolvedElement>, k: nat): (r: seq<ResolvedElement>)
    ensures !HasKey(cs, k) ==> r == cs
    ensures HasKey(cs, k) ==> |r| == |cs| - 1
    ensures var i := FirstWithKey(cs, k);
      HasKey(cs, k) ==> forall j :: 0 <= j < |r| ==> r[j] == (if j < i then cs[j] else cs[j + 1])
  {
    var i := FirstWithKey(cs, k);
    if i < |cs| then cs[..i] + cs[i + 1..] else cs
  }

  /** A child that keeps its class from being empty: anything except a
      `SIZE_OF` method or a constructor without children. */
  predicate Counts(c: ResolvedElement)
    reads c
  {
    c.kind != MethodElement(SizeOf) &&
    (c.kind == MethodElement(Constructor) ==> |c.children| > 0)
  }

  class ResolvedElement {
    /** What `equals` compares: the constructor fields for the elements
        that are data classes, an object token for the others. */
    const key: nat
    const kind: ResolvedKind
    var children: seq<ResolvedElement>
    var parent: ResolvedElement?
    /** `isNotEmptyCache`; used by classes only. */
    var notEmptyCache: Option<bool>

    constructor (key: nat, kind: ResolvedKind)
      ensures this.key == key && this.kind == kind
      ensures children == [] && parent == null && notEmptyCache == None
    {
      this.key := key;
      this.kind := kind;
      children := [];
      parent := null;
      notEmptyCache := None;
    }

    /** `calculateNotEmpty`: a class with a base class, or with a child
        that counts. */
    predicate NotEmpty()
      reads this, children
    {
      (kind.ClassElement? && kind.hasBaseClass) ||
      exists i :: 0 <= i < |children| && Counts(children[i])
    }

    /** The cached answer, when there is one, is the current answer. */
    ghost predicate CacheValid()
      reads this, children
    {
      notEmptyCache.Some? ==> notEmptyCache.value == NotEmpty()
    }

    /** `addChild`: a class first forgets its cached answer; a child equal
        to one already present is refused; otherwise it is appended and its
        parent becomes this element. */
    method AddChild(child: ResolvedElement) returns (r: Result<()>)
      modifies this, child
      ensures kind.ClassElement? ==> notEmptyCache == None && CacheValid()
      ensures !kind.ClassElement? ==> notEmptyCache == old(notEmptyCache)
      ensures HasKey(old(children), child.key) ==>
        r == Fail(IllegalArgument) && children == old(children) && child.parent == old(child.parent)
      ensures !HasKey(old(children), child.key) ==>
        r.Ok? && children == old(children) + [child] && child.parent == this
      ensures child != this ==> child.children == old(child.children)
    {
      if kind.ClassElement? {
        notEmptyCache := None;
      }
      if HasKey(children, child.key) {
        return Fail(IllegalArgument);
      }
      children := children + [child];
      child.parent := this;
      r := Ok(());
    }

    /** `addAllChildren`: every element of `list` is checked against the
        existing children before any is added (the list itself is not
        checked for repeats); then all are appended and each gets this
        element as its parent. */
    method AddAllChildren(list: seq<ResolvedElement>) returns (r: Result<()>)
      modifies this, list
      ensures kind.ClassElement? ==> notEmptyCache == None && CacheValid()
      ensures !kind.ClassElement? ==> notEmptyCache == old(notEmptyCache)
      ensures (exists j :: 0 <= j < |list| && HasKey(old(children), list[j].key)) ==>
        r == Fail(IllegalArgument) && children == old(children) &&
        forall j :: 0 <= j < |list| ==> list[j].parent == old(list[j].parent)
      ensures (forall j :: 0 <= j < |list| ==> !HasKey(old(children), list[j].key)) ==>
        r.Ok? && children == old(children) + list &&
        forall j :: 0 <= j < |list| ==> list[j].parent == this
      ensures forall j :: 0 <= j < |list| && list[j] != this ==> list[j].children == old(list[j].children)
    {
      if kind.ClassElement? {
        notEmptyCache := None;
      }
      for i := 0 to |list|
        invariant forall j :: 0 <= j < i ==> !HasKey(children, list[j].key)
      {
        if HasKey(children, list[i].key) {
          return Fail(IllegalArgument);
        }
      }
      children := children + list;
      for i := 0 to |list|
        invariant children == old(children) + list
        invariant notEmptyCache == (if kind.ClassElement? then None else old(notEmptyCache))
        invariant forall j :: 0 <= j < i ==> list[j].parent == this
        invariant forall j :: 0 <= j < |list| && list[j] != this ==> list[j].children == old(list[j].children)
      {
        list[i].parent := this;
      }
      r := Ok(());
    }

    /** `removeChild` as the source has it: the first child equal to
        `child` goes, and a class keeps its cached answer. */
    method RemoveChildAsWritten(child: ResolvedElement)
      modifies this
      ensures children == RemoveFirst(old(children), child.key)
      ensures notEmptyCache == old(notEmptyCache) && parent == old(parent)
    {
      children := RemoveFirst(children, child.key);
    }

    /** `clearChildren` as the source has it: no children left, and a class
        keeps its cached answer. */
    method ClearChildrenAsWritten()
      modifies this
      ensures children == [] && notEmptyCache == old(notEmptyCache) && parent == old(parent)
    {
      children := [];
    }

    /** `removeChild` with the cache dropped, as `addChild` drops it: the
        first child equal to `child` goes and the cached answer stays
        right. */
    method RemoveChild(child: ResolvedElement)
      modifies this
      ensures children == RemoveFirst(old(children), child.key)
      ensures kind.ClassElement? ==> notEmptyCache == None
      ensures !kind.ClassElement? ==> notEmptyCache == old(notEmptyCache)
      ensures parent == old(parent)
      ensures kind.ClassElement? ==> CacheValid()
    {
      if kind.ClassElement? {
        notEmptyCache := None;
      }
      children := RemoveFirst(children, child.key);
    }

    /** `clearChildren` with the cache dropped: no children left, and a
        class without a base class is now empty. */
    method ClearChildren()
      modifies this
      ensures children == []
      ensures kind.ClassElement? ==> notEmptyCache == None && CacheValid()
      ensures !kind.ClassElement? ==> notEmptyCache == old(notEmptyCache)
      ensures parent == old(parent)
      ensures NotEmpty() <==> kind.ClassElement? && kind.hasBaseClass
    {
      if kind.ClassElement? {
        notEmptyCache := None;
      }
      children := [];
    }

    /** `isNotEmpty`: the cached answer if there is one, otherwise the
        computed one, which is then cached. */
    method IsNotEmpty() returns (b: bool)
      requires kind.ClassElement?
      modifies this
      ensures old(notEmptyCache).Some? ==> b == old(notEmptyCache).value
      ensures old(notEmptyCache).None? ==> b == NotEmpty()
      ensures notEmptyCache == Some(b) && children == old(children) && parent == old(parent)
      ensures old(CacheValid()) ==> b == NotEmpty() && CacheValid()
    {
      if notEmptyCache.Some? {
        return notEmptyCache.value;
      }
      b := NotEmpty();
      notEmptyCache := Some(b);
    }

    /** `cloneWithoutChildren` of a resolved class: an equal element (a
        copy of a data class) with no children, no parent and no cached
        answer. */
    method CloneWithoutChildren() returns (c: ResolvedElement)
      ensures fresh(c)
      ensures c.key == key && c.kind == kind
      ensures c.children == [] && c.parent == null && c.notEmptyCache == None
    {
      c := new ResolvedElement(key, kind);
    }
  }

  /** A class whose only child is an ordinary method is not empty; once
      `removeChild` (as written) takes that method away, `isNotEmpty` still
      answers from the stale cache. */
  method StaleCacheAfterRemove() returns (cached: bool, actual: bool)
    ensures cached && !actual
  {
    var cls := new ResolvedElement(0, ClassElement(false));
    var m := new ResolvedElement(1, MethodElement(Method));
    var added := cls.AddChild(m);
    assert Counts(cls.children[0]);
    var first := cls.IsNotEmpty();
    cls.RemoveChildAsWritten(m);
    cached := cls.IsNotEmpty();
    actual := cls.NotEmpty();
  }

  /** The same sequence with the corrected `removeChild`: the second
      question is answered afresh. */
  method FreshAnswerAfterRemove() returns (cached: bool, actual: bool)
    ensures !cached && !actual
  {
    var cls := new ResolvedElement(0, ClassElement(false));
    var m := new ResolvedElement(1, MethodElement(Method));
    var added := cls.AddChild(m);
    assert Counts(cls.children[0]);
    var first := cls.IsNotEmpty();
    cls.RemoveChild(m);
    cached := cls.IsNotEmpty();
    actual := cls.NotEmpty();
  }
}
