/** The mapping side of the plugin protocol. A mapping receives one element
    of the resolved tree, runs user code on it, and answers with the list of
    modifications that code asked for. The user code calls `remove`,
    `replaceWith` and `add` on any element it can reach; what gets recorded
    depends on where that element sits relative to the element being mapped.

    Elements are values here: `id` stands for the object identity the source
    compares with `===`, and an element's parent links are given as its
    ancestor chain, root first and the element itself last. */
module Mappings {
  import opened Wrappers

  datatype Element = Element(id: nat, children: seq<Element>)

  /** The answers a mapping can give for the element it was asked about. */
  datatype MapResult =
    | RemoveChild
    | RemoveParent
    | NoChange
    | ReplaceChild(newChild: Element)
    | ReplaceParent(newChild: Element)
    | AddToParent(newChild: Element)
    | AddToChild(newChild: Element)

  /** What the user code asks of an element. */
  datatype Edit = Remove | ReplaceWith(other: Element) | Add(other: Element)

  /** One call made by the user code: the edit and the ancestor chain of the
      element it was made on. */
  datatype Call = Call(edit: Edit, chain: seq<Element>)

  function OptSeq(s: Option<Element>): (r: seq<Element>)
    ensures |r| <= 1
  {
    if s.Some? then [s.value] else []
  }

  /** The children put into the clone of the parent: each child is kept
      except `target`, in whose place goes `sub` (nothing for a removal). */
  function Rebuilt(cs: seq<Element>, target: nat, sub: Option<Element>): seq<Element>
    decreases |cs|
  {
    if |cs| == 0 then []
    else
      Rebuilt(cs[..|cs| - 1], target, sub)
        + (if cs[|cs| - 1].id == target then OptSeq(sub) else [cs[|cs| - 1]])
  }

  /** `replaceWith(other)` on the last element of `chain`, while the element
      `cur` (with parent `curParent`) is being mapped. */
  function ReplaceRequest(chain: seq<Element>, other: Element, cur: Option<nat>, curParent: Option<nat>): seq<MapResult>
    requires |chain| >= 1
    decreases |chain|, 1
  {
    var self := chain[|chain| - 1];
    if cur == Some(self.id) then [ReplaceChild(other)]
    else if curParent == Some(self.id) then [ReplaceParent(other)]
    else Climb(chain, Some(other), cur, curParent)
  }

  /** The fallback shared by all three edits: the parent is cloned without
      children, refilled with `sub` in place of the element, and the parent
      is replaced by that clone. An element without a parent is ignored. */
  function Climb(chain: seq<Element>, sub: Option<Element>, cur: Option<nat>, curParent: Option<nat>): seq<MapResult>
    requires |chain| >= 1
    decreases |chain|, 0
  {
    if |chain| == 1 then []
    else
      var parent := chain[|chain| - 2];
      var copy := Element(parent.id, Rebuilt(parent.children, chain[|chain| - 1].id, sub));
      ReplaceRequest(chain[..|chain| - 1], copy, cur, curParent)
  }

  function RemoveRequest(chain: seq<Element>, cur: Option<nat>, curParent: Option<nat>): seq<MapResult>
    requires |chain| >= 1
  {
    var self := chain[|chain| - 1];
    if cur == Some(self.id) then [RemoveChild]
    else if curParent == Some(self.id) then [RemoveParent]
    else Climb(chain, None, cur, curParent)
  }

  /** `add(other)` as written: away from the mapped element and its parent,
      the clone of the parent gets `other` in place of the element. */
  function AddRequestAsWritten(chain: seq<Element>, other: Element, cur: Option<nat>, curParent: Option<nat>): seq<MapResult>
    requires |chain| >= 1
  {
    var self := chain[|chain| - 1];
    if cur == Some(self.id) then [AddToChild(other)]
    else if curParent == Some(self.id) then [AddToParent(other)]
    else Climb(chain, Some(other), cur, curParent)
  }

  /** The element with `other` appended to its children. */
  function WithChild(e: Element, other: Element): (r: Element)
    ensures r.id == e.id && |r.children| == |e.children| + 1
    ensures r.children[..|e.children|] == e.children && r.children[|e.children|] == other
  {
    Element(e.id, e.children + [other])
  }

  /** `add(other)` as intended: away from the mapped element and its parent,
      the element keeps its place and gains `other` as its last child. */
  function AddRequest(chain: seq<Element>, other: Element, cur: Option<nat>, curParent: Option<nat>): seq<MapResult>
    requires |chain| >= 1
  {
    var self := chain[|chain| - 1];
    if cur == Some(self.id) then [AddToChild(other)]
    else if curParent == Some(self.id) then [AddToParent(other)]
    else Climb(chain, Some(WithChild(self, other)), cur, curParent)
  }

  function Request(e: Edit, chain: seq<Element>, cur: Option<nat>, curParent: Option<nat>): seq<MapResult>
    requires |chain| >= 1
  {
    match e
    case Remove => RemoveRequest(chain, cur, curParent)
    case ReplaceWith(other) => ReplaceRequest(chain, other, cur, curParent)
    case Add(other) => AddRequest(chain, other, cur, curParent)
  }

  predicate WellFormed(calls: seq<Call>) {
    forall i :: 0 <= i < |calls| ==> |calls[i].chain| >= 1
  }

  /** The modifications recorded by a sequence of calls, in call order. */
  function Outcome(calls: seq<Call>, cur: Option<nat>, curParent: Option<nat>): seq<MapResult>
    requires WellFormed(calls)
    decreases |calls|
  {
    if |calls| == 0 then []
    else
      var last := calls[|calls| - 1];
      Outcome(calls[..|calls| - 1], cur, curParent) + Request(last.edit, last.chain, cur, curParent)
  }

  /** `MapRequest.child`: a negative index names the parent itself, whose
      own parent link does not survive serialization; otherwise the child at
      that index, whose parent is the request's element. */
  function RequestedChild(parent: Element, childIndex: int): (r: Result<(Element, Option<nat>)>)
    ensures r.Fail? <==> childIndex >= |parent.children|
    ensures r.Ok? && childIndex < 0 ==> r.value == (parent, None)
    ensures r.Ok? && childIndex >= 0 ==> r.value.0 in parent.children && r.value.1 == Some(parent.id)
  {
    if childIndex >= |parent.children| then Fail(IndexOutOfBounds)
    else if childIndex < 0 then Ok((parent, None))
    else Ok((parent.children[childIndex], Some(parent.id)))
  }

  /** The clone of `parent` filled child by child. */
  method Rebuild(parent: Element, target: nat, sub: Option<Element>) returns (copy: Element)
    ensures copy == Element(parent.id, Rebuilt(parent.children, target, sub))
  {
    var kids: seq<Element> := [];
    for i := 0 to |parent.children|
      invariant kids == Rebuilt(parent.children[..i], target, sub)
    {
      var child := parent.children[i];
      assert parent.children[..i + 1][..i] == parent.children[..i];
      if child.id == target {
        if sub.Some? {
          kids := kids + [sub.value];
        }
      } else {
        kids := kids + [child];
      }
    }
    assert parent.children[..|parent.children|] == parent.children;
    copy := Element(parent.id, kids);
  }

  class Mapper {
    var modifications: seq<MapResult>
    var currentId: Option<nat>
    var currentParentId: Option<nat>

    constructor()
      ensures modifications == [] && currentId == None && currentParentId == None
    {
      modifications := [];
      currentId := None;
      currentParentId := None;
    }

    method ReplaceWith(chain: seq<Element>, other: Element)
      requires |chain| >= 1
      modifies this
      ensures modifications == old(modifications) + ReplaceRequest(chain, other, currentId, currentParentId)
      ensures currentId == old(currentId) && currentParentId == old(currentParentId)
      decreases |chain|
    {
      var self := chain[|chain| - 1];
      if currentId == Some(self.id) {
        modifications := modifications + [ReplaceChild(other)];
      } else if currentParentId == Some(self.id) {
        modifications := modifications + [ReplaceParent(other)];
      } else if |chain| > 1 {
        var copy := Rebuild(chain[|chain| - 2], self.id, Some(other));
        ReplaceWith(chain[..|chain| - 1], copy);
      }
    }

    method Remove(chain: seq<Element>)
      requires |chain| >= 1
      modifies this
      ensures modifications == old(modifications) + RemoveRequest(chain, currentId, currentParentId)
      ensures currentId == old(currentId) && currentParentId == old(currentParentId)
    {
      var self := chain[|chain| - 1];
      if currentId == Some(self.id) {
        modifications := modifications + [RemoveChild];
      } else if currentParentId == Some(self.id) {
        modifications := modifications + [RemoveParent];
      } else if |chain| > 1 {
        var copy := Rebuild(chain[|chain| - 2], self.id, None);
        ReplaceWith(chain[..|chain| - 1], copy);
      }
    }

    method AddAsWritten(chain: seq<Element>, other: Element)
      requires |chain| >= 1
      modifies this
      ensures modifications == old(modifications) + AddRequestAsWritten(chain, other, currentId, currentParentId)
      ensures currentId == old(currentId) && currentParentId == old(currentParentId)
    {
      var self := chain[|chain| - 1];
      if currentId == Some(self.id) {
        modifications := modifications + [AddToChild(other)];
      } else if currentParentId == Some(self.id) {
        modifications := modifications + [AddToParent(other)];
      } else if |chain| > 1 {
        var copy := Rebuild(chain[|chain| - 2], self.id, Some(other));
        ReplaceWith(chain[..|chain| - 1], copy);
      }
    }

    method Add(chain: seq<Element>, other: Element)
      requires |chain| >= 1
      modifies this
      ensures modifications == old(modifications) + AddRequest(chain, other, currentId, currentParentId)
      ensures currentId == old(currentId) && currentParentId == old(currentParentId)
    {
      var self := chain[|chain| - 1];
      if currentId == Some(self.id) {
        modifications := modifications + [AddToChild(other)];
      } else if currentParentId == Some(self.id) {
        modifications := modifications + [AddToParent(other)];
      } else if |chain| > 1 {
        var copy := Rebuild(chain[|chain| - 2], self.id, Some(WithChild(self, other)));
        ReplaceWith(chain[..|chain| - 1], copy);
      }
    }

    /** `mapElement`: forget earlier answers, make the requested element
        current, run the user code (here: the calls it makes) and answer with
        what those calls recorded. */
    method MapElement(parent: Element, childIndex: int, calls: seq<Call>) returns (r: Result<seq<MapResult>>)
      requires WellFormed(calls)
      modifies this
      ensures r.Fail? <==> childIndex >= |parent.children|
      ensures r.Fail? ==> modifications == [] && currentId == old(currentId) && currentParentId == old(currentParentId)
      ensures r.Ok? ==> (
        var (child, parentId) := RequestedChild(parent, childIndex).value;
        currentId == Some(child.id) && currentParentId == parentId &&
        r.value == modifications == Outcome(calls, Some(child.id), parentId))
    {
      modifications := [];
      var requested := RequestedChild(parent, childIndex);
      if requested.Fail? {
        return Fail(requested.error);
      }
      var (child, parentId) := requested.value;
      currentId := Some(child.id);
      currentParentId := parentId;
      for i := 0 to |calls|
        invariant currentId == Some(child.id) && currentParentId == parentId
        invariant modifications == Outcome(calls[..i], currentId, currentParentId)
      {
        assert calls[..i + 1][..i] == calls[..i];
        var call := calls[i];
        match call.edit
        case Remove => Remove(call.chain);
        case ReplaceWith(other) => ReplaceWith(call.chain, other);
        case Add(other) => Add(call.chain, other);
      }
      assert calls[..|calls|] == calls;
      r := Ok(modifications);
    }
  }

  // ---------------------------------------------------------------------
  // The tree an edit stands for

  /** The independent reading of an edit: follow `path` (child indices) down
      from `root` and put `sub` in place of the element found there. An index
      that leaves the tree changes nothing. */
  function EditAt(root: Element, path: seq<nat>, sub: Option<Element>): Option<Element>
    decreases |path|
  {
    if |path| == 0 then sub
    else if path[0] >= |root.children| then Some(root)
    else
      var p := path[0];
      Some(Element(root.id, root.children[..p] + OptSeq(EditAt(root.children[p], path[1..], sub)) + root.children[p + 1..]))
  }

  /** `chain` follows `path`: each element is the child of the one before at
      the index the path gives. */
  predicate IsPath(chain: seq<Element>, path: seq<nat>) {
    |path| + 1 == |chain| &&
    forall j :: 0 <= j < |path| ==>
      path[j] < |chain[j].children| && chain[j].children[path[j]] == chain[j + 1]
  }

  /** No element on the chain shares its identity with a sibling, as
      `addChild` guarantees by refusing a child already present. */
  predicate SiblingsDistinct(chain: seq<Element>, path: seq<nat>)
    requires IsPath(chain, path)
  {
    forall j, i :: 0 <= j < |path| && 0 <= i < |chain[j].children| && i != path[j] ==>
      chain[j].children[i].id != chain[j + 1].id
  }

  /** The answer recorded at an ancestor: a replacement of the mapped element
      itself or of its parent. */
  function Found(cur: Option<nat>, id: nat, e: Element): MapResult {
    if cur == Some(id) then ReplaceChild(e) else ReplaceParent(e)
  }

  // ---------------------------------------------------------------------
  // Properties

  lemma {:induction false} RebuiltAppend(a: seq<Element>, b: seq<Element>, target: nat, sub: Option<Element>)
    ensures Rebuilt(a + b, target, sub) == Rebuilt(a, target, sub) + Rebuilt(b, target, sub)
    decreases |b|
  {
    if |b| == 0 {
      assert a + b == a;
    } else {
      assert (a + b)[..|a + b| - 1] == a + b[..|b| - 1];
      RebuiltAppend(a, b[..|b| - 1], target, sub);
    }
  }

  lemma {:induction false} RebuiltUntouched(cs: seq<Element>, target: nat, sub: Option<Element>)
    requires forall i :: 0 <= i < |cs| ==> cs[i].id != target
    ensures Rebuilt(cs, target, sub) == cs
    decreases |cs|
  {
    if |cs| > 0 {
      RebuiltUntouched(cs[..|cs| - 1], target, sub);
      assert cs[..|cs| - 1] + [cs[|cs| - 1]] == cs;
    }
  }

  /** The refill loop puts `sub` exactly where the element was, and keeps
      every sibling in its order. */
  lemma RebuiltAt(cs: seq<Element>, p: nat, sub: Option<Element>)
    requires p < |cs|
    requires forall i :: 0 <= i < |cs| && i != p ==> cs[i].id != cs[p].id
    ensures Rebuilt(cs, cs[p].id, sub) == cs[..p] + OptSeq(sub) + cs[p + 1..]
  {
    var t := cs[p].id;
    assert cs == cs[..p] + [cs[p]] + cs[p + 1..];
    RebuiltAppend(cs[..p] + [cs[p]], cs[p + 1..], t, sub);
    RebuiltAppend(cs[..p], [cs[p]], t, sub);
    RebuiltUntouched(cs[..p], t, sub);
    var rest := cs[p + 1..];
    forall i | 0 <= i < |rest|
      ensures rest[i].id != t
    {
      assert rest[i] == cs[p + 1 + i];
    }
    RebuiltUntouched(rest, t, sub);
    assert [cs[p]][..0] == [];
  }

  /** One step of the climb: the parent's clone, refilled with the edited
      element, is the parent edited along the path. */
  lemma ClimbStep(chain: seq<Element>, path: seq<nat>, sub: Option<Element>,
                  cur: Option<nat>, curParent: Option<nat>, m: nat)
    requires IsPath(chain, path) && SiblingsDistinct(chain, path)
    requires 0 < m < |chain|
    ensures EditAt(chain[m - 1], path[m - 1..], sub).Some?
    ensures Climb(chain[..m + 1], EditAt(chain[m], path[m..], sub), cur, curParent)
      == ReplaceRequest(chain[..m], EditAt(chain[m - 1], path[m - 1..], sub).value, cur, curParent)
  {
    var c := chain[..m + 1];
    var s := EditAt(chain[m], path[m..], sub);
    var parent := chain[m - 1];
    var p := path[m - 1];
    assert c[m] == chain[m] && c[m - 1] == parent && c[..m] == chain[..m];
    RebuiltAt(parent.children, p, s);
    assert path[m - 1..][0] == p && path[m - 1..][1..] == path[m..];
  }

  /** Climbing from element `m` of the chain, with that element's edited
      version in hand, ends at the first ancestor `k` that is the mapped
      element or its parent, and the answer carries ancestor `k` with the
      whole edit applied below it. */
  lemma {:induction false} ClimbEditsAt(chain: seq<Element>, path: seq<nat>, sub: Option<Element>,
                                        cur: Option<nat>, curParent: Option<nat>, k: nat, m: nat)
    requires IsPath(chain, path) && SiblingsDistinct(chain, path)
    requires k < m < |chain|
    requires cur == Some(chain[k].id) || curParent == Some(chain[k].id)
    requires forall j :: k < j < m ==> cur != Some(chain[j].id) && curParent != Some(chain[j].id)
    ensures EditAt(chain[k], path[k..], sub).Some?
    ensures Climb(chain[..m + 1], EditAt(chain[m], path[m..], sub), cur, curParent)
      == [Found(cur, chain[k].id, EditAt(chain[k], path[k..], sub).value)]
    decreases m
  {
    ClimbStep(chain, path, sub, cur, curParent, m);
    var up := chain[..m];
    assert up[m - 1] == chain[m - 1];
    if m - 1 > k {
      ClimbEditsAt(chain, path, sub, cur, curParent, k, m - 1);
    }
  }

  /** When neither the mapped element nor its parent is on the chain above
      the element, every edit of it is dropped without a trace. */
  lemma {:induction false} ClimbDropped(chain: seq<Element>, sub: Option<Element>, cur: Option<nat>, curParent: Option<nat>)
    requires |chain| >= 1
    requires forall j :: 0 <= j < |chain| - 1 ==> cur != Some(chain[j].id) && curParent != Some(chain[j].id)
    ensures Climb(chain, sub, cur, curParent) == []
    decreases |chain|
  {
    if |chain| > 1 {
      var parent := chain[|chain| - 2];
      var copy := Element(parent.id, Rebuilt(parent.children, chain[|chain| - 1].id, sub));
      var up := chain[..|chain| - 1];
      assert up[|up| - 1] == parent;
      ClimbDropped(up, Some(copy), cur, curParent);
    }
  }

  lemma {:induction false} ClimbAtMostOne(chain: seq<Element>, sub: Option<Element>, cur: Option<nat>, curParent: Option<nat>)
    requires |chain| >= 1
    ensures |Climb(chain, sub, cur, curParent)| <= 1
    decreases |chain|
  {
    if |chain| > 1 {
      var parent := chain[|chain| - 2];
      var copy := Element(parent.id, Rebuilt(parent.children, chain[|chain| - 1].id, sub));
      ClimbAtMostOne(chain[..|chain| - 1], Some(copy), cur, curParent);
    }
  }

  /** Each call records at most one modification, so a mapping answers with
      no more modifications than the calls its code made. */
  lemma {:induction false} OutcomeBound(calls: seq<Call>, cur: Option<nat>, curParent: Option<nat>)
    requires WellFormed(calls)
    ensures |Outcome(calls, cur, curParent)| <= |calls|
    decreases |calls|
  {
    if |calls| > 0 {
      var last := calls[|calls| - 1];
      OutcomeBound(calls[..|calls| - 1], cur, curParent);
      ClimbAtMostOne(last.chain, Substitute(last.edit, last.chain[|last.chain| - 1]), cur, curParent);
    }
  }

  /** What an edit puts in place of the element it is made on. */
  function Substitute(e: Edit, self: Element): Option<Element> {
    match e
    case Remove => None
    case ReplaceWith(other) => Some(other)
    case Add(other) => Some(WithChild(self, other))
  }

  /** An edit made on the mapped element itself or on its parent is recorded
      directly, as the matching answer. */
  lemma RequestDirect(e: Edit, chain: seq<Element>, cur: Option<nat>, curParent: Option<nat>)
    requires |chain| >= 1
    ensures cur == Some(chain[|chain| - 1].id) ==>
      Request(e, chain, cur, curParent) == [match e
        case Remove => RemoveChild
        case ReplaceWith(other) => ReplaceChild(other)
        case Add(other) => AddToChild(other)]
    ensures cur != Some(chain[|chain| - 1].id) && curParent == Some(chain[|chain| - 1].id) ==>
      Request(e, chain, cur, curParent) == [match e
        case Remove => RemoveParent
        case ReplaceWith(other) => ReplaceParent(other)
        case Add(other) => AddToParent(other)]
  {
  }

  /** An edit made further down, below the mapped element or below its
      parent, is recorded as a replacement of that ancestor by a copy with
      the edit applied at the element's place. */
  lemma RequestBelow(e: Edit, chain: seq<Element>, path: seq<nat>, cur: Option<nat>, curParent: Option<nat>, k: nat)
    requires IsPath(chain, path) && SiblingsDistinct(chain, path)
    requires k < |chain| - 1
    requires cur == Some(chain[k].id) || curParent == Some(chain[k].id)
    requires forall j :: k < j < |chain| ==> cur != Some(chain[j].id) && curParent != Some(chain[j].id)
    ensures EditAt(chain[k], path[k..], Substitute(e, chain[|chain| - 1])).Some?
    ensures Request(e, chain, cur, curParent)
      == [Found(cur, chain[k].id, EditAt(chain[k], path[k..], Substitute(e, chain[|chain| - 1])).value)]
  {
    var m := |chain| - 1;
    assert chain[..m + 1] == chain;
    assert path[m..] == [];
    ClimbEditsAt(chain, path, Substitute(e, chain[m]), cur, curParent, k, m);
  }

  /** An edit of an element whose chain holds neither the mapped element nor
      its parent records nothing. */
  lemma RequestDropped(e: Edit, chain: seq<Element>, cur: Option<nat>, curParent: Option<nat>)
    requires |chain| >= 1
    requires forall j :: 0 <= j < |chain| ==> cur != Some(chain[j].id) && curParent != Some(chain[j].id)
    ensures Request(e, chain, cur, curParent) == []
  {
    ClimbDropped(chain, Substitute(e, chain[|chain| - 1]), cur, curParent);
  }

  /** Replacing an element by itself, anywhere below an ancestor, gives the
      ancestor back unchanged. */
  lemma {:induction false} EditAtSelf(chain: seq<Element>, path: seq<nat>, k: nat)
    requires IsPath(chain, path)
    requires k < |chain|
    ensures EditAt(chain[k], path[k..], Some(chain[|chain| - 1])) == Some(chain[k])
    decreases |chain| - k
  {
    if k < |chain| - 1 {
      EditAtSelf(chain, path, k + 1);
      var cs := chain[k].children;
      var p := path[k];
      assert path[k..][0] == p && path[k..][1..] == path[k + 1..];
      assert cs[..p] + [cs[p]] + cs[p + 1..] == cs;
    } else {
      assert path[k..] == [];
    }
  }

  /** `replaceWith` with the element itself, made below the mapped element,
      answers with the mapped element unchanged. */
  lemma ReplaceWithSelf(chain: seq<Element>, path: seq<nat>, cur: Option<nat>, curParent: Option<nat>, k: nat)
    requires IsPath(chain, path) && SiblingsDistinct(chain, path)
    requires k < |chain| - 1 && cur == Some(chain[k].id)
    requires forall j :: k < j < |chain| ==> cur != Some(chain[j].id) && curParent != Some(chain[j].id)
    ensures Request(ReplaceWith(chain[|chain| - 1]), chain, cur, curParent) == [ReplaceChild(chain[k])]
  {
    RequestBelow(ReplaceWith(chain[|chain| - 1]), chain, path, cur, curParent, k);
    EditAtSelf(chain, path, k);
  }

  /** As written, `add` away from the mapped element and its parent records
      exactly what `replaceWith` records. */
  lemma AddAsWrittenReplaces(chain: seq<Element>, other: Element, cur: Option<nat>, curParent: Option<nat>)
    requires |chain| >= 1
    requires cur != Some(chain[|chain| - 1].id) && curParent != Some(chain[|chain| - 1].id)
    ensures AddRequestAsWritten(chain, other, cur, curParent) == ReplaceRequest(chain, other, cur, curParent)
  {
  }

  /** The smallest case: the mapped element 1 has one child 2, and the code
      adds 3 to that child. As written the answer drops 2 and puts 3 in its
      place; intended is 2 with 3 as its child. */
  lemma AddGrandchildCounterexample()
    ensures AddRequestAsWritten([Element(1, [Element(2, [])]), Element(2, [])], Element(3, []), Some(1), None)
      == [ReplaceChild(Element(1, [Element(3, [])]))]
    ensures AddRequest([Element(1, [Element(2, [])]), Element(2, [])], Element(3, []), Some(1), None)
      == [ReplaceChild(Element(1, [Element(2, [Element(3, [])])]))]
  {
    var chain := [Element(1, [Element(2, [])]), Element(2, [])];
    assert chain[..1] == [Element(1, [Element(2, [])])];
    var kids := [Element(2, [])];
    assert kids[..0] == [];
    assert Rebuilt(kids, 2, Some(Element(3, []))) == [Element(3, [])];
    assert Rebuilt(kids, 2, Some(Element(2, [Element(3, [])]))) == [Element(2, [Element(3, [])])];
  }

  /** With `add` as intended, an element below the mapped one keeps its
      place and its children and gains the new child after them. */
  lemma AddKeepsElement(chain: seq<Element>, path: seq<nat>, other: Element, cur: Option<nat>, curParent: Option<nat>, k: nat)
    requires IsPath(chain, path) && SiblingsDistinct(chain, path)
    requires k < |chain| - 1
    requires cur == Some(chain[k].id) || curParent == Some(chain[k].id)
    requires forall j :: k < j < |chain| ==> cur != Some(chain[j].id) && curParent != Some(chain[j].id)
    ensures Request(Add(other), chain, cur, curParent)
      == [Found(cur, chain[k].id, EditAt(chain[k], path[k..], Some(WithChild(chain[|chain| - 1], other))).value)]
    ensures Request(Add(other), chain, cur, curParent) != Request(Remove, chain, cur, curParent)
  {
    var self := chain[|chain| - 1];
    RequestBelow(Add(other), chain, path, cur, curParent, k);
    RequestBelow(Remove, chain, path, cur, curParent, k);
    EditAtDiffers(chain, path, k, Some(WithChild(self, other)), None);
  }

  /** Two different substitutes give two different trees. */
  lemma {:induction false} EditAtDiffers(chain: seq<Element>, path: seq<nat>, k: nat, a: Option<Element>, b: Option<Element>)
    requires IsPath(chain, path)
    requires k < |chain| - 1
    requires a != b
    ensures EditAt(chain[k], path[k..], a) != EditAt(chain[k], path[k..], b)
    decreases |chain| - k
  {
    var cs := chain[k].children;
    var p := path[k];
    assert path[k..][0] == p && path[k..][1..] == path[k + 1..];
    var ea := EditAt(chain[k + 1], path[k + 1..], a);
    var eb := EditAt(chain[k + 1], path[k + 1..], b);
    if k + 1 < |chain| - 1 {
      EditAtDiffers(chain, path, k + 1, a, b);
    } else {
      assert path[k + 1..] == [];
    }
    assert ea != eb;
    var ra := cs[..p] + OptSeq(ea) + cs[p + 1..];
    var rb := cs[..p] + OptSeq(eb) + cs[p + 1..];
    if ea.Some? && eb.Some? {
      assert ra[p] == ea.value && rb[p] == eb.value;
    } else {
      assert |ra| != |rb|;
    }
  }
}
