/** The parsed model: wrapped elements with ordered children and a parent
    link, and the class-specific bookkeeping done before a class is
    resolved (default constructor, copy constructors, assignment operators,
    hidden `new` and `delete`). */
module WrappedElements {
  import opened Wrappers
  import opened Text
  import opened CppTypes
  import opened CppTypeParse
  import opened Methods
  import Operators
  import opened Dedup

  /** What an element is. A method's declared arguments are held in its
      declaration; a destructor is a method of type `DESTRUCTOR`; a
      constructor also records whether clang called it the default one. */
  datatype WrappedKind =
    | ClassKind(name: string, isAbstract: bool, specifiedType: Option<CppType>)
    | NamespaceKind(namespace: string)
    | MethodKind(decl: MethodDecl)
    | ConstructorKind(decl: MethodDecl, isDefaultConstructor: bool)
    | BaseKind(baseType: Option<CppType>)
    | TemplateParamKind(name: string, usr: string)
    | OtherKind

  predicate IsConstructor(k: WrappedKind) { k.ConstructorKind? }

  predicate IsDestructor(k: WrappedKind) { k.MethodKind? && k.decl.methodType == Destructor }

  /** The declaration of a `WrappedMethod` (constructors and destructors
      included). */
  function MethodOf(k: WrappedKind): (r: Option<MethodDecl>)
    ensures r.Some? <==> k.MethodKind? || k.ConstructorKind?
  {
    match k
    case MethodKind(d) => Some(d)
    case ConstructorKind(d, _) => Some(d)
    case _ => None
  }

  /** `Operator.from(it) is BasicAssignmentOperator`, by the names and
      arity under which that holds (see `AssignmentIsOperator`). */
  predicate IsAssignment(k: WrappedKind) {
    var m := MethodOf(k);
    m.Some? && Operators.IsAssignmentName(m.value.name, |m.value.args|)
  }

  /** The test above is the one `modifyMethodsIfNeeded` makes: the
      operator table yields an assignment operator for the method. */
  lemma AssignmentIsOperator(k: WrappedKind)
    ensures IsAssignment(k) <==> (MethodOf(k).Some? &&
      var op := Operators.From(MethodOf(k).value.name, |MethodOf(k).value.args|);
      op.Some? && op.value.kind == Operators.Assignment)
  {
    if MethodOf(k).Some? {
      Operators.AssignmentByName(MethodOf(k).value.name, |MethodOf(k).value.args|);
    }
  }

  predicate NotConstructor(k: WrappedKind) { !IsConstructor(k) }
  predicate NotDestructor(k: WrappedKind) { !IsDestructor(k) }
  predicate NotAssignment(k: WrappedKind) { !IsAssignment(k) }

  /** The children `modifyMethodsIfNeeded` never touches. */
  predicate Ordinary(k: WrappedKind) { !IsConstructor(k) && !IsDestructor(k) && !IsAssignment(k) }

  /** What hidden `new` and hidden `delete` together leave. */
  predicate NeitherConstructorNorDestructor(k: WrappedKind) { !IsConstructor(k) && !IsDestructor(k) }

  /** An assignment operator that is an ordinary method. */
  predicate PlainAssignment(k: WrappedKind) { IsAssignment(k) && !IsConstructor(k) && !IsDestructor(k) }

  /** A constructor that is not also taken for an assignment operator. */
  predicate PlainConstructor(k: WrappedKind) { IsConstructor(k) && !IsAssignment(k) }

  /** A destructor that is not also taken for an assignment operator. */
  predicate PlainDestructor(k: WrappedKind) { IsDestructor(k) && !IsAssignment(k) }

  /** The constructor kinds step one adds. */
  function DefaultAddition(needed: bool, classType: CppType): seq<WrappedKind> {
    if needed then [DefaultConstructorKind(classType)] else []
  }

  /** The constructors among `cs`: what the copy-constructor check may change. */
  function ConstructorsIn(cs: seq<WrappedElement>): set<WrappedElement> {
    set i | 0 <= i < |cs| && IsConstructor(cs[i].kind) :: cs[i]
  }

  /** The kinds of `cs`, in order. */
  function KindsOf(cs: seq<WrappedElement>): seq<WrappedKind> {
    seq(|cs|, i requires 0 <= i < |cs| => cs[i].kind)
  }

  /** Each method kind turned into its void-returning copy. */
  function Voided(ks: seq<WrappedKind>): seq<WrappedKind> {
    seq(|ks|, i requires 0 <= i < |ks| => if MethodOf(ks[i]).Some? then VoidCopy(ks[i]) else ks[i])
  }

  /** `copy(returnType = VOID)`: the same method, returning void. */
  function VoidCopy(k: WrappedKind): (r: WrappedKind)
    requires MethodOf(k).Some?
    ensures MethodOf(r) == Some(MethodOf(k).value.(returnType := VOID))
    ensures IsConstructor(r) == IsConstructor(k) && IsDestructor(r) == IsDestructor(k)
    ensures IsAssignment(r) == IsAssignment(k)
  {
    match k
    case MethodKind(d) => MethodKind(d.(returnType := VOID))
    case ConstructorKind(d, isDefault) => ConstructorKind(d.(returnType := VOID), isDefault)
  }

  /** The constructor `modifyMethodsIfNeeded` adds: "new", returning the
      class type, without arguments, marked as the default constructor. */
  function DefaultConstructorKind(classType: CppType): WrappedKind {
    ConstructorKind(MethodDecl("new", classType, Constructor, []), true)
  }

  /** `checkCopyConstructor`'s test. */
  predicate CopiesClass(k: WrappedKind, classType: CppType) {
    k.ConstructorKind? && |k.decl.args| == 1 && k.decl.args[0].argType == classType
  }

  /** The elements of `cs` whose kind satisfies `p`, in order. */
  function Where(cs: seq<WrappedElement>, p: WrappedKind -> bool): (r: seq<WrappedElement>)
    ensures |r| <= |cs|
    ensures forall i :: 0 <= i < |r| ==> r[i] in cs && p(r[i].kind)
    ensures forall i :: 0 <= i < |cs| && p(cs[i].kind) ==> cs[i] in r
  {
    if |cs| == 0 then []
    else (if p(cs[0].kind) then [cs[0]] else []) + Where(cs[1..], p)
  }

  /** The mutable flags of an element, in one value. */
  datatype ElementMarks = ElementMarks(isCopyConstructor: bool, hasConstructorFlag: bool, hasHiddenNew: bool, hasHiddenDelete: bool)

  class WrappedElement {
    const kind: WrappedKind
    var children: seq<WrappedElement>
    var parent: WrappedElement?
    /** `WrappedConstructor.isCopyConstructor`. */
    var isCopyConstructor: bool
    /** The backing field of `WrappedClass.hasConstructor`, set when a
        hidden constructor was seen. */
    var hasConstructorFlag: bool
    var hasHiddenNew: bool
    var hasHiddenDelete: bool

    constructor (kind: WrappedKind, isCopyConstructor: bool)
      ensures this.kind == kind && children == [] && parent == null
      ensures Marks() == ElementMarks(isCopyConstructor, false, false, false)
    {
      this.kind := kind;
      children := [];
      parent := null;
      this.isCopyConstructor := isCopyConstructor;
      hasConstructorFlag := false;
      hasHiddenNew := false;
      hasHiddenDelete := false;
    }

    function Marks(): ElementMarks
      reads this
    {
      ElementMarks(isCopyConstructor, hasConstructorFlag, hasHiddenNew, hasHiddenDelete)
    }

    /** Whether step one adds the default constructor: the class is not
        abstract and neither it nor any of its base classes has a
        constructor. */
    predicate DefaultNeeded(bases: seq<WrappedElement>)
      reads this, set j | 0 <= j < |bases| :: bases[j]
    {
      kind.ClassKind? && !kind.isAbstract && !HasConstructor() &&
      !exists j :: 0 <= j < |bases| && bases[j].HasConstructor()
    }

    /** `hasConstructor`: the flag, or a constructor among the children. */
    predicate HasConstructor()
      reads this
    {
      hasConstructorFlag || exists i :: 0 <= i < |children| && IsConstructor(children[i].kind)
    }

    /** `clearChildren`. */
    method ClearChildren()
      modifies this
      ensures children == [] && parent == old(parent) && Marks() == old(Marks())
    {
      children := [];
    }

    /** `addChild`: a child already present is refused; otherwise it is
        appended. The child's parent is left as it was. */
    method AddChild(child: WrappedElement) returns (r: Result<()>)
      modifies this
      ensures child in old(children) ==> r == Fail(IllegalArgument) && children == old(children)
      ensures child !in old(children) ==> r.Ok? && children == old(children) + [child]
      ensures parent == old(parent) && Marks() == old(Marks()) && child.parent == old(child.parent)
    {
      if child in children {
        return Fail(IllegalArgument);
      }
      children := children + [child];
      r := Ok(());
    }

    /** `addAllChildren`: refused, with nothing added, when any element of
        `list` is already a child; otherwise `list` is appended (repeats
        inside `list` are not checked). No parent changes. */
    method AddAllChildren(list: seq<WrappedElement>) returns (r: Result<()>)
      modifies this
      ensures (exists j :: 0 <= j < |list| && list[j] in old(children)) ==>
        r == Fail(IllegalArgument) && children == old(children)
      ensures (forall j :: 0 <= j < |list| ==> list[j] !in old(children)) ==>
        r.Ok? && children == old(children) + list
      ensures parent == old(parent) && Marks() == old(Marks())
      ensures forall j :: 0 <= j < |list| ==> list[j].parent == old(list[j].parent)
    {
      for i := 0 to |list|
        invariant forall j :: 0 <= j < i ==> list[j] !in children
      {
        if list[i] in children {
          return Fail(IllegalArgument);
        }
      }
      children := children + list;
      r := Ok(());
    }

    /** `removeChild`: the first occurrence of `child` goes. */
    method RemoveChild(child: WrappedElement)
      modifies this
      ensures children == RemoveOne(old(children), child)
      ensures parent == old(parent) && Marks() == old(Marks())
    {
      children := RemoveOne(children, child);
    }

    /** `clone`: a new element of the same kind with the same children list
        and parent. A constructor keeps its copy flag; a class keeps
        `hasConstructor` (as computed, flag or constructor child), `hasHiddenNew`
        and `hasHiddenDelete`. */
    method Clone() returns (c: WrappedElement)
      requires !kind.BaseKind?
      ensures fresh(c)
      ensures c.kind == kind && c.children == children && c.parent == parent
      ensures c.isCopyConstructor == (kind.ConstructorKind? && isCopyConstructor)
      ensures c.hasConstructorFlag == (kind.ClassKind? && HasConstructor())
      ensures c.hasHiddenNew == (kind.ClassKind? && hasHiddenNew)
      ensures c.hasHiddenDelete == (kind.ClassKind? && hasHiddenDelete)
      ensures kind.ClassKind? ==> c.HasConstructor() == HasConstructor()
    {
      c := new WrappedElement(kind, kind.ConstructorKind? && isCopyConstructor);
      c.parent := parent;
      c.children := children;
      if kind.ClassKind? {
        c.hasConstructorFlag := HasConstructor();
        c.hasHiddenNew := hasHiddenNew;
        c.hasHiddenDelete := hasHiddenDelete;
      }
    }

    /** `checkCopyConstructor`: a constructor taking exactly one argument of
        the class's own type becomes a copy constructor; the flag is never
        cleared. */
    method CheckCopyConstructor(classType: CppType)
      requires kind.ConstructorKind?
      modifies this
      ensures isCopyConstructor == (old(isCopyConstructor) || CopiesClass(kind, classType))
      ensures children == old(children) && parent == old(parent)
      ensures hasConstructorFlag == old(hasConstructorFlag)
      ensures hasHiddenNew == old(hasHiddenNew) && hasHiddenDelete == old(hasHiddenDelete)
    {
      if |kind.decl.args| == 1 && kind.decl.args[0].argType == classType {
        isCopyConstructor := true;
      }
    }

    // -------------------------------------------------------------------
    // WrappedClass.modifyMethodsIfNeeded, step by step

    /** Step one: a class that is not abstract, has no constructor, and none
        of whose base classes has one, gets a default constructor "new". */
    method AddDefaultConstructor(bases: seq<WrappedElement>, classType: CppType)
      requires kind.ClassKind?
      modifies this
      ensures var needed := !kind.isAbstract && !old(HasConstructor()) &&
        !exists j :: 0 <= j < |bases| && old(bases[j].HasConstructor());
        (needed ==>
          |children| == |old(children)| + 1 && children[..|old(children)|] == old(children) &&
          fresh(children[|old(children)|]) &&
          children[|old(children)|].kind == DefaultConstructorKind(classType) &&
          !children[|old(children)|].isCopyConstructor) &&
        (!needed ==> children == old(children))
      ensures parent == old(parent) && Marks() == old(Marks())
      ensures forall o :: o in ConstructorsIn(children) ==> o in old(ConstructorsIn(children)) || fresh(o)
      ensures forall c :: c in children ==> c in old(children) || (fresh(c) && !c.isCopyConstructor && !CopiesClass(c.kind, classType))
      ensures !kind.isAbstract && !(exists j :: 0 <= j < |bases| && old(bases[j].HasConstructor())) ==>
        HasConstructor()
    {
      var baseHas := false;
      for j := 0 to |bases|
        invariant baseHas <==> exists k :: 0 <= k < j && bases[k].HasConstructor()
      {
        if bases[j].HasConstructor() {
          baseHas := true;
        }
      }
      if !kind.isAbstract && !HasConstructor() && !baseHas {
        var c := new WrappedElement(DefaultConstructorKind(classType), false);
        ghost var before := children;
        var added := AddChild(c);
        assert children[|children| - 1] == c;
        assert children == before + [c];
        ConstructorsSnoc(before, c);
      }
    }

    /** Appending `c` adds at most `c` to the constructors. */
    static lemma ConstructorsSnoc(cs: seq<WrappedElement>, c: WrappedElement)
      ensures ConstructorsIn(cs + [c]) <= ConstructorsIn(cs) + {c}
    {
      forall o | o in ConstructorsIn(cs + [c])
        ensures o in ConstructorsIn(cs) + {c}
      {
        var i :| 0 <= i < |cs| + 1 && IsConstructor((cs + [c])[i].kind) && (cs + [c])[i] == o;
        if i < |cs| {
          assert cs[i] == o;
        }
      }
    }

    /** Step two: `checkCopyConstructor` on every constructor child. */
    method CheckCopyConstructors(classType: CppType)
      requires kind.ClassKind?
      modifies ConstructorsIn(children)
      ensures children == old(children) && parent == old(parent) && Marks() == old(Marks())
      ensures forall i :: 0 <= i < |children| ==>
        children[i].isCopyConstructor == (old(children[i].isCopyConstructor) || CopiesClass(children[i].kind, classType))
      ensures forall c :: c in children ==> c.isCopyConstructor == (old(c.isCopyConstructor) || CopiesClass(c.kind, classType))
    {
      var cs := children;
      for i := 0 to |cs|
        invariant children == cs
        invariant forall j :: 0 <= j < i ==>
          cs[j].isCopyConstructor == (old(cs[j].isCopyConstructor) || CopiesClass(cs[j].kind, classType))
        invariant forall j :: 0 <= j < |cs| ==>
          cs[j].isCopyConstructor == old(cs[j].isCopyConstructor) ||
          cs[j].isCopyConstructor == (old(cs[j].isCopyConstructor) || CopiesClass(cs[j].kind, classType))
      {
        if IsConstructor(cs[i].kind) {
          cs[i].CheckCopyConstructor(classType);
        }
      }
    }

    /** Step three: every assignment operator is removed and a copy of it
        returning void (same children, same parent) is appended, in the
        order the operators had. */
    method VoidAssignments() returns (ghost copies: seq<WrappedElement>)
      requires kind.ClassKind?
      modifies this
      ensures children == Where(old(children), NotAssignment) + copies
      ensures |copies| == |Where(old(children), IsAssignment)|
      ensures forall k :: 0 <= k < |copies| ==>
        fresh(copies[k]) && CopyOf(copies[k], Where(old(children), IsAssignment)[k])
      ensures forall k :: 0 <= k < |copies| ==>
        IsAssignment(copies[k].kind) && MethodOf(copies[k].kind).value.returnType == VOID
      ensures parent == old(parent) && Marks() == old(Marks())
    {
      var ops := Where(children, IsAssignment);
      copies := ReplaceEach(ops);
      RemoveEachWhere(old(children), IsAssignment, NotAssignment);
      forall k | 0 <= k < |copies|
        ensures IsAssignment(copies[k].kind) && MethodOf(copies[k].kind).value.returnType == VOID
      {
        assert CopyOf(copies[k], ops[k]);
      }
    }

    /** The loop of step three over the operators `ops`, in order. */
    method ReplaceEach(ops: seq<WrappedElement>) returns (ghost copies: seq<WrappedElement>)
      requires kind.ClassKind?
      requires forall k :: 0 <= k < |ops| ==> IsAssignment(ops[k].kind)
      modifies this
      ensures children == RemoveEach(old(children), ops) + copies
      ensures |copies| == |ops|
      ensures forall k :: 0 <= k < |copies| ==> fresh(copies[k]) && CopyOf(copies[k], ops[k])
      ensures parent == old(parent) && Marks() == old(Marks())
    {
      copies := [];
      for i := 0 to |ops|
        invariant children == RemoveEach(old(children), ops[..i]) + copies
        invariant |copies| == i
        invariant forall k :: 0 <= k < i ==> fresh(copies[k]) && CopyOf(copies[k], ops[k])
        invariant parent == old(parent) && Marks() == old(Marks())
      {
        var op := ops[i];
        assert op !in copies;
        RemoveOneAppend(RemoveEach(old(children), ops[..i]), copies, op);
        RemoveEachSnocStep(old(children), ops, i);
        ghost var prev := copies;
        var copy := ReplaceWithVoidCopy(op);
        copies := copies + [copy];
        forall k | 0 <= k < i + 1
          ensures fresh(copies[k]) && CopyOf(copies[k], ops[k])
        {
          if k < i {
            assert copies[k] == prev[k];
          }
        }
      }
      assert ops[..|ops|] == ops;
    }

    /** One turn of step three: `removeChild(op)` then
        `addChild(op.copy(returnType = VOID))`. */
    method ReplaceWithVoidCopy(op: WrappedElement) returns (copy: WrappedElement)
      requires IsAssignment(op.kind)
      requires kind.ClassKind?
      modifies this
      ensures fresh(copy) && CopyOf(copy, op)
      ensures children == RemoveOne(old(children), op) + [copy]
      ensures parent == old(parent) && Marks() == old(Marks())
    {
      RemoveChild(op);
      copy := new WrappedElement(VoidCopy(op.kind), op.kind.ConstructorKind? && op.isCopyConstructor);
      copy.children := op.children;
      copy.parent := op.parent;
      var added := AddChild(copy);
    }

    /** `filterIsInstance<…>().forEach { removeChild(it) }`: every child of
        the selected kind goes; the others stay in order. */
    method RemoveEvery(p: WrappedKind -> bool, q: WrappedKind -> bool)
      requires forall k :: q(k) == !p(k)
      modifies this
      ensures children == Where(old(children), q)
      ensures parent == old(parent) && Marks() == old(Marks())
    {
      var doomed := Where(children, p);
      for i := 0 to |doomed|
        invariant children == RemoveEach(old(children), doomed[..i])
        invariant parent == old(parent) && Marks() == old(Marks())
      {
        RemoveChild(doomed[i]);
        RemoveEachSnocStep(old(children), doomed, i);
      }
      assert doomed[..|doomed|] == doomed;
      RemoveEachWhere(old(children), p, q);
    }

    /** `modifyMethodsIfNeeded`: the four steps in order. Afterwards the
        other children are as they were; the assignment operators are the
        same ones, in the same order, each returning void; the constructors
        are the old ones plus the default `new` when it was needed, or none
        at all under hidden `new`, and each is flagged as a copy constructor
        when it copies the class or already was one; the destructors are
        the old ones, or none at all under hidden `delete`. */
    method ModifyMethodsIfNeeded(bases: seq<WrappedElement>, classType: CppType)
      requires kind.ClassKind?
      modifies this, ConstructorsIn(children)
      ensures Where(children, Ordinary) == Where(old(children), Ordinary)
      ensures KindsOf(Where(children, PlainAssignment)) == Voided(KindsOf(Where(old(children), PlainAssignment)))
      ensures AssignmentsVoid(children)
      ensures KindsOf(Where(children, PlainConstructor)) ==
        (if hasHiddenNew then [] else KindsOf(Where(old(children), PlainConstructor)) + DefaultAddition(old(DefaultNeeded(bases)), classType))
      ensures Where(children, PlainDestructor) == if hasHiddenDelete then [] else Where(old(children), PlainDestructor)
      ensures forall c :: c in children && PlainConstructor(c.kind) ==>
        c.isCopyConstructor == (CopiesClass(c.kind, classType) || (c in old(children) && old(c.isCopyConstructor)))
      ensures hasHiddenNew ==> NoneOf(children, IsConstructor)
      ensures hasHiddenDelete ==> NoneOf(children, IsDestructor)
      ensures parent == old(parent) && Marks() == old(Marks())
    {
      ghost var c0 := children;
      ghost var needed := DefaultNeeded(bases);
      ConstructorSteps(bases, classType);
      ghost var c1 := children;
      AssignmentAndHidingSteps();
      StepsCompose(c0, c1, children, classType, needed, hasHiddenNew);
    }

    /** Steps one and two: the default constructor when needed, then the
        copy-constructor check. Only that constructor is added; every
        constructor copying the class is flagged, the others keep their flag. */
    method ConstructorSteps(bases: seq<WrappedElement>, classType: CppType)
      requires kind.ClassKind?
      modifies this, ConstructorsIn(children)
      ensures Where(children, Ordinary) == Where(old(children), Ordinary)
      ensures Where(children, PlainAssignment) == Where(old(children), PlainAssignment)
      ensures Where(children, PlainDestructor) == Where(old(children), PlainDestructor)
      ensures KindsOf(Where(children, PlainConstructor)) ==
        KindsOf(Where(old(children), PlainConstructor)) + DefaultAddition(old(DefaultNeeded(bases)), classType)
      ensures forall c :: c in children && IsConstructor(c.kind) ==>
        c.isCopyConstructor == (CopiesClass(c.kind, classType) || (c in old(children) && old(c.isCopyConstructor)))
      ensures parent == old(parent) && Marks() == old(Marks())
    {
      ghost var c0 := children;
      ghost var needed := DefaultNeeded(bases);
      AddDefaultConstructor(bases, classType);
      ghost var c1 := children;
      WhereOrdinaryAfterDefault(c0, c1, classType);
      DefaultAdded(c0, c1, classType, needed);
      label checked:
      CheckCopyConstructors(classType);
      forall c | c in children && IsConstructor(c.kind)
        ensures c.isCopyConstructor == (CopiesClass(c.kind, classType) || (c in c0 && old(c.isCopyConstructor)))
      {
        assert c.isCopyConstructor == (old@checked(c.isCopyConstructor) || CopiesClass(c.kind, classType));
        if c in c0 {
          assert c != this;
          assert old@checked(c.isCopyConstructor) == old(c.isCopyConstructor);
        }
      }
    }

    /** Steps three and four: assignment operators become void copies at
        the end, then hidden `new` and `delete` remove their kinds. */
    method AssignmentAndHidingSteps()
      requires kind.ClassKind?
      modifies this
      ensures Where(children, Ordinary) == Where(old(children), Ordinary)
      ensures KindsOf(Where(children, PlainAssignment)) == Voided(KindsOf(Where(old(children), PlainAssignment)))
      ensures Where(children, PlainConstructor) == if hasHiddenNew then [] else Where(old(children), PlainConstructor)
      ensures Where(children, PlainDestructor) == if hasHiddenDelete then [] else Where(old(children), PlainDestructor)
      ensures AssignmentsVoid(children)
      ensures hasHiddenNew ==> NoneOf(children, IsConstructor)
      ensures hasHiddenDelete ==> NoneOf(children, IsDestructor)
      ensures parent == old(parent) && Marks() == old(Marks())
    {
      ghost var c1 := children;
      ghost var ops := Where(c1, IsAssignment);
      ghost var copies := VoidAssignments();
      AfterVoid(c1, copies);
      AssignmentsAfterVoid(c1, ops, copies);
      ConstructorsAfterVoid(c1, copies);
      DestructorsAfterVoid(c1, copies);
      ghost var c2 := children;
      HideNewAndDelete();
      AfterHide(c2, children, hasHiddenNew, hasHiddenDelete);
    }

    /** Step four: hidden `new` removes every constructor, hidden `delete`
        every destructor; every other child stays, in order. */
    method HideNewAndDelete()
      requires AssignmentsVoid(children)
      modifies this
      ensures hasHiddenNew && hasHiddenDelete ==> children == Where(old(children), NeitherConstructorNorDestructor)
      ensures hasHiddenNew && !hasHiddenDelete ==> children == Where(old(children), NotConstructor)
      ensures !hasHiddenNew && hasHiddenDelete ==> children == Where(old(children), NotDestructor)
      ensures !hasHiddenNew && !hasHiddenDelete ==> children == old(children)
      ensures Where(children, Ordinary) == Where(old(children), Ordinary)
      ensures AssignmentsVoid(children)
      ensures hasHiddenNew ==> NoneOf(children, IsConstructor)
      ensures hasHiddenDelete ==> NoneOf(children, IsDestructor)
      ensures parent == old(parent) && Marks() == old(Marks())
    {
      if hasHiddenNew {
        ghost var before := children;
        RemoveEvery(IsConstructor, NotConstructor);
        AfterRemove(before, IsConstructor, NotConstructor);
      }
      if hasHiddenDelete {
        ghost var before := children;
        RemoveEvery(IsDestructor, NotDestructor);
        AfterRemove(before, IsDestructor, NotDestructor);
        if hasHiddenNew {
          NoneOfWhere(before, IsConstructor, NotDestructor);
          WhereBoth(old(children), NotConstructor, NotDestructor, NeitherConstructorNorDestructor);
        }
      }
    }
  }

  /** `c` is `op.copy(returnType = VOID)`: same children and parent, a
      constructor keeping its copy flag. */
  ghost predicate CopyOf(c: WrappedElement, op: WrappedElement)
    reads c, op
  {
    MethodOf(op.kind).Some? &&
    c.kind == VoidCopy(op.kind) && c.children == op.children && c.parent == op.parent &&
    c.isCopyConstructor == (op.kind.ConstructorKind? && op.isCopyConstructor)
  }

  /** Every assignment operator among `cs` returns void. */
  predicate AssignmentsVoid(cs: seq<WrappedElement>) {
    forall i :: 0 <= i < |cs| && IsAssignment(cs[i].kind) ==> MethodOf(cs[i].kind).value.returnType == VOID
  }

  predicate NoneOf(cs: seq<WrappedElement>, p: WrappedKind -> bool) {
    forall i :: 0 <= i < |cs| ==> !p(cs[i].kind)
  }

  // ---------------------------------------------------------------------
  // Lemmas about removing by kind

  lemma RemoveOneAppend(a: seq<WrappedElement>, b: seq<WrappedElement>, x: WrappedElement)
    requires x !in b
    ensures RemoveOne(a + b, x) == RemoveOne(a, x) + b
    decreases |a|
  {
    if |a| > 0 {
      assert (a + b)[1..] == a[1..] + b;
      if a[0] != x {
        RemoveOneAppend(a[1..], b, x);
      }
    }
  }

  lemma RemoveEachSnocStep(cs: seq<WrappedElement>, xs: seq<WrappedElement>, i: nat)
    requires i < |xs|
    ensures RemoveEach(cs, xs[..i + 1]) == RemoveOne(RemoveEach(cs, xs[..i]), xs[i])
  {
    assert xs[..i + 1] == xs[..i] + [xs[i]];
    RemoveEachAppend(cs, xs[..i], xs[i]);
  }

  lemma {:induction false} RemoveEachCons(c: WrappedElement, rest: seq<WrappedElement>, xs: seq<WrappedElement>)
    requires c !in xs
    ensures RemoveEach([c] + rest, xs) == [c] + RemoveEach(rest, xs)
    decreases |xs|
  {
    if |xs| > 0 {
      assert ([c] + rest)[1..] == rest;
      RemoveEachCons(c, RemoveOne(rest, xs[0]), xs[1..]);
    }
  }

  /** Removing, one by one, every element of a kind leaves exactly the
      others, in order, even when an element appears twice. */
  lemma {:induction false} RemoveEachWhere(cs: seq<WrappedElement>, p: WrappedKind -> bool, q: WrappedKind -> bool)
    requires forall k :: q(k) == !p(k)
    ensures RemoveEach(cs, Where(cs, p)) == Where(cs, q)
    decreases |cs|
  {
    if |cs| > 0 {
      var c := cs[0];
      var rest := cs[1..];
      assert cs == [c] + rest;
      RemoveEachWhere(rest, p, q);
      if p(c.kind) {
        assert Where(cs, p) == [c] + Where(rest, p);
      } else {
        assert Where(cs, p) == Where(rest, p);
        RemoveEachCons(c, rest, Where(rest, p));
      }
    }
  }

  lemma {:induction false} WhereAppend(a: seq<WrappedElement>, b: seq<WrappedElement>, p: WrappedKind -> bool)
    ensures Where(a + b, p) == Where(a, p) + Where(b, p)
    decreases |a|
  {
    if |a| > 0 {
      assert (a + b)[1..] == a[1..] + b;
      WhereAppend(a[1..], b, p);
    } else {
      assert a + b == b;
    }
  }

  /** Filtering twice, by a kind and then by a narrower one, is filtering
      by the narrower one. */
  lemma {:induction false} WhereNarrower(cs: seq<WrappedElement>, p: WrappedKind -> bool, q: WrappedKind -> bool)
    requires forall k :: q(k) ==> p(k)
    ensures Where(Where(cs, p), q) == Where(cs, q)
    decreases |cs|
  {
    if |cs| > 0 {
      WhereNarrower(cs[1..], p, q);
      WhereAppend(if p(cs[0].kind) then [cs[0]] else [], Where(cs[1..], p), q);
      if p(cs[0].kind) {
        assert ([cs[0]] + [])[1..] == [];
      }
    }
  }

  lemma {:induction false} WhereNone(cs: seq<WrappedElement>, q: WrappedKind -> bool)
    requires forall i :: 0 <= i < |cs| ==> !q(cs[i].kind)
    ensures Where(cs, q) == []
    decreases |cs|
  {
    if |cs| > 0 {
      WhereNone(cs[1..], q);
    }
  }

  lemma WhereOrdinaryAfterDefault(c0: seq<WrappedElement>, c1: seq<WrappedElement>, classType: CppType)
    requires c1 == c0 || (|c1| == |c0| + 1 && c1[..|c0|] == c0 && c1[|c0|].kind == DefaultConstructorKind(classType))
    ensures Where(c1, Ordinary) == Where(c0, Ordinary)
  {
    if c1 != c0 {
      assert c1 == c0 + [c1[|c0|]];
      WhereAppend(c0, [c1[|c0|]], Ordinary);
      WhereNone([c1[|c0|]], Ordinary);
    }
  }

  lemma {:induction false} AssignmentsVoidWhere(cs: seq<WrappedElement>, q: WrappedKind -> bool)
    requires AssignmentsVoid(cs)
    ensures AssignmentsVoid(Where(cs, q))
    decreases |cs|
  {
    if |cs| > 0 {
      AssignmentsVoidWhere(cs[1..], q);
    }
  }

  lemma {:induction false} NoneOfWhere(cs: seq<WrappedElement>, p: WrappedKind -> bool, q: WrappedKind -> bool)
    requires NoneOf(cs, p)
    ensures NoneOf(Where(cs, q), p)
    decreases |cs|
  {
    if |cs| > 0 {
      NoneOfWhere(cs[1..], p, q);
    }
  }

  /** After step three: the ordinary children are unchanged and every
      assignment operator returns void. */
  lemma AfterVoid(c1: seq<WrappedElement>, copies: seq<WrappedElement>)
    requires forall k :: 0 <= k < |copies| ==>
      IsAssignment(copies[k].kind) && MethodOf(copies[k].kind).value.returnType == VOID
    ensures Where(Where(c1, NotAssignment) + copies, Ordinary) == Where(c1, Ordinary)
    ensures AssignmentsVoid(Where(c1, NotAssignment) + copies)
  {
    var kept := Where(c1, NotAssignment);
    WhereAppend(kept, copies, Ordinary);
    WhereNone(copies, Ordinary);
    WhereNarrower(c1, NotAssignment, Ordinary);
  }

  lemma AfterRemove(before: seq<WrappedElement>, p: WrappedKind -> bool, q: WrappedKind -> bool)
    requires forall k :: q(k) == !p(k)
    requires forall k :: Ordinary(k) ==> q(k)
    requires AssignmentsVoid(before)
    ensures Where(Where(before, q), Ordinary) == Where(before, Ordinary)
    ensures AssignmentsVoid(Where(before, q))
    ensures NoneOf(Where(before, q), p)
  {
    WhereNarrower(before, q, Ordinary);
    AssignmentsVoidWhere(before, q);
  }

  /** Steps one and two, then three and four, compose as stated by
      `modifyMethodsIfNeeded`. */
  lemma StepsCompose(c0: seq<WrappedElement>, c1: seq<WrappedElement>, c3: seq<WrappedElement>,
                     classType: CppType, needed: bool, hideNew: bool)
    requires Where(c1, PlainAssignment) == Where(c0, PlainAssignment)
    requires KindsOf(Where(c1, PlainConstructor)) ==
      KindsOf(Where(c0, PlainConstructor)) + DefaultAddition(needed, classType)
    requires KindsOf(Where(c3, PlainAssignment)) == Voided(KindsOf(Where(c1, PlainAssignment)))
    requires Where(c3, PlainConstructor) == if hideNew then [] else Where(c1, PlainConstructor)
    ensures KindsOf(Where(c3, PlainAssignment)) == Voided(KindsOf(Where(c0, PlainAssignment)))
    ensures KindsOf(Where(c3, PlainConstructor)) ==
      if hideNew then []
      else KindsOf(Where(c0, PlainConstructor)) + DefaultAddition(needed, classType)
  {
    if hideNew {
      assert KindsOf([]) == [];
    }
  }

  /** Filtering by one kind and then another is filtering by both. */
  lemma {:induction false} WhereBoth(cs: seq<WrappedElement>, p: WrappedKind -> bool, q: WrappedKind -> bool,
                                     both: WrappedKind -> bool)
    requires forall k :: both(k) == (p(k) && q(k))
    ensures Where(Where(cs, p), q) == Where(cs, both)
    decreases |cs|
  {
    if |cs| > 0 {
      WhereBoth(cs[1..], p, q, both);
      WhereAppend(if p(cs[0].kind) then [cs[0]] else [], Where(cs[1..], p), q);
      if p(cs[0].kind) {
        assert ([cs[0]] + [])[1..] == [];
      }
    }
  }

  lemma KindsAppend(a: seq<WrappedElement>, b: seq<WrappedElement>)
    ensures KindsOf(a + b) == KindsOf(a) + KindsOf(b)
  {
    assert forall i :: 0 <= i < |a + b| ==> KindsOf(a + b)[i] == (KindsOf(a) + KindsOf(b))[i];
  }

  /** Step one adds at most the default constructor, which is a plain
      constructor and no assignment operator. */
  lemma DefaultAdded(c0: seq<WrappedElement>, c1: seq<WrappedElement>, classType: CppType, needed: bool)
    requires needed ==> |c1| == |c0| + 1 && c1[..|c0|] == c0 && c1[|c0|].kind == DefaultConstructorKind(classType)
    requires !needed ==> c1 == c0
    ensures Where(c1, PlainAssignment) == Where(c0, PlainAssignment)
    ensures Where(c1, PlainDestructor) == Where(c0, PlainDestructor)
    ensures KindsOf(Where(c1, PlainConstructor)) ==
      KindsOf(Where(c0, PlainConstructor)) + DefaultAddition(needed, classType)
  {
    if needed {
      var d := c1[|c0|];
      assert c1 == c0 + [d];
      assert !Operators.IsAssignmentName("new", 0);
      assert PlainConstructor(d.kind) && !PlainAssignment(d.kind);
      WhereAppend(c0, [d], PlainAssignment);
      WhereAppend(c0, [d], PlainConstructor);
      WhereAppend(c0, [d], PlainDestructor);
      assert Where([d], PlainAssignment) == [];
      assert Where([d], PlainDestructor) == [];
      assert Where([d], PlainConstructor) == [d];
      KindsAppend(Where(c0, PlainConstructor), [d]);
    }
  }

  /** The void copies keep, in order, the plain assignment operators they
      replace. */
  lemma {:induction false} CopiesVoided(ops: seq<WrappedElement>, copies: seq<WrappedElement>)
    requires |copies| == |ops|
    requires forall k :: 0 <= k < |ops| ==> MethodOf(ops[k].kind).Some? && copies[k].kind == VoidCopy(ops[k].kind)
    ensures KindsOf(Where(copies, PlainAssignment)) == Voided(KindsOf(Where(ops, PlainAssignment)))
    decreases |ops|
  {
    if |ops| > 0 {
      var o, c := ops[0], copies[0];
      var restO, restC := ops[1..], copies[1..];
      assert forall k :: 0 <= k < |restO| ==> restO[k] == ops[k + 1] && restC[k] == copies[k + 1];
      CopiesVoided(restO, restC);
      var headO := if PlainAssignment(o.kind) then [o] else [];
      var headC := if PlainAssignment(c.kind) then [c] else [];
      assert Where(ops, PlainAssignment) == headO + Where(restO, PlainAssignment);
      assert Where(copies, PlainAssignment) == headC + Where(restC, PlainAssignment);
      KindsAppend(headO, Where(restO, PlainAssignment));
      KindsAppend(headC, Where(restC, PlainAssignment));
      VoidedAppend(KindsOf(headO), KindsOf(Where(restO, PlainAssignment)));
      assert KindsOf(headC) == Voided(KindsOf(headO));
    }
  }

  lemma VoidedAppend(a: seq<WrappedKind>, b: seq<WrappedKind>)
    ensures Voided(a + b) == Voided(a) + Voided(b)
  {
    assert forall i :: 0 <= i < |a + b| ==> Voided(a + b)[i] == (Voided(a) + Voided(b))[i];
  }

  /** After step three the plain assignment operators are the void copies. */
  lemma AssignmentsAfterVoid(c1: seq<WrappedElement>, ops: seq<WrappedElement>, copies: seq<WrappedElement>)
    requires ops == Where(c1, IsAssignment) && |copies| == |ops|
    requires forall k :: 0 <= k < |copies| ==> CopyOf(copies[k], ops[k])
    ensures KindsOf(Where(Where(c1, NotAssignment) + copies, PlainAssignment)) ==
      Voided(KindsOf(Where(c1, PlainAssignment)))
  {
    var kept := Where(c1, NotAssignment);
    WhereAppend(kept, copies, PlainAssignment);
    WhereNone(kept, PlainAssignment);
    CopiesVoided(ops, copies);
    WhereNarrower(c1, IsAssignment, PlainAssignment);
    assert Where(kept, PlainAssignment) + Where(copies, PlainAssignment) == Where(copies, PlainAssignment);
  }

  /** Step three leaves the plain constructors where they were. */
  lemma ConstructorsAfterVoid(c1: seq<WrappedElement>, copies: seq<WrappedElement>)
    requires forall k :: 0 <= k < |copies| ==> IsAssignment(copies[k].kind)
    ensures Where(Where(c1, NotAssignment) + copies, PlainConstructor) == Where(c1, PlainConstructor)
  {
    var kept := Where(c1, NotAssignment);
    WhereAppend(kept, copies, PlainConstructor);
    WhereNone(copies, PlainConstructor);
    WhereNarrower(c1, NotAssignment, PlainConstructor);
    assert Where(kept, PlainConstructor) + [] == Where(kept, PlainConstructor);
  }

  /** Step three leaves the plain destructors where they were. */
  lemma DestructorsAfterVoid(c1: seq<WrappedElement>, copies: seq<WrappedElement>)
    requires forall k :: 0 <= k < |copies| ==> IsAssignment(copies[k].kind)
    ensures Where(Where(c1, NotAssignment) + copies, PlainDestructor) == Where(c1, PlainDestructor)
  {
    var kept := Where(c1, NotAssignment);
    WhereAppend(kept, copies, PlainDestructor);
    WhereNone(copies, PlainDestructor);
    WhereNarrower(c1, NotAssignment, PlainDestructor);
    assert Where(kept, PlainDestructor) + [] == Where(kept, PlainDestructor);
  }

  /** Step four keeps every plain assignment operator, every plain
      constructor unless `new` is hidden and every plain destructor unless
      `delete` is hidden. */
  lemma AfterHide(c2: seq<WrappedElement>, c3: seq<WrappedElement>, hideNew: bool, hideDelete: bool)
    requires hideNew && hideDelete ==> c3 == Where(c2, NeitherConstructorNorDestructor)
    requires hideNew && !hideDelete ==> c3 == Where(c2, NotConstructor)
    requires !hideNew && hideDelete ==> c3 == Where(c2, NotDestructor)
    requires !hideNew && !hideDelete ==> c3 == c2
    ensures Where(c3, PlainAssignment) == Where(c2, PlainAssignment)
    ensures Where(c3, PlainConstructor) == if hideNew then [] else Where(c2, PlainConstructor)
    ensures Where(c3, PlainDestructor) == if hideDelete then [] else Where(c2, PlainDestructor)
  {
    if hideNew && hideDelete {
      WhereNarrower(c2, NeitherConstructorNorDestructor, PlainAssignment);
      WhereNone(c3, PlainConstructor);
      WhereNone(c3, PlainDestructor);
    } else if hideNew {
      WhereNarrower(c2, NotConstructor, PlainAssignment);
      WhereNone(c3, PlainConstructor);
      WhereNarrower(c2, NotConstructor, PlainDestructor);
    } else if hideDelete {
      WhereNarrower(c2, NotDestructor, PlainAssignment);
      WhereNarrower(c2, NotDestructor, PlainConstructor);
      WhereNone(c3, PlainDestructor);
    }
  }

  // ---------------------------------------------------------------------
  // WrappedClass.type and qualified

  /** The name a class or namespace contributes to a qualified name. */
  function Named(k: WrappedKind): Option<string> {
    match k
    case ClassKind(n, _, _) => Some(n)
    case NamespaceKind(n) => Some(n)
    case _ => None
  }

  function NamedParts(chain: seq<WrappedKind>): (r: seq<string>)
    ensures |r| <= |chain|
  {
    if |chain| == 0 then []
    else
      var last := Named(chain[|chain| - 1]);
      NamedParts(chain[..|chain| - 1]) + (if last.Some? then [last.value] else [])
  }

  /** `qualified`: the class and namespace names among the element's
      ancestors (root first, ending with the element itself), joined with
      "::". */
  function Qualified(chain: seq<WrappedKind>): string {
    Join(NamedParts(chain), "::")
  }

  /** `type`: the specified type, or the qualified name read as a type. */
  function ClassType(k: WrappedKind, chain: seq<WrappedKind>): (r: Result<CppType>)
    requires k.ClassKind?
    ensures k.specifiedType.Some? ==> r.Ok?
    ensures r.Fail? ==> r == Fail(IllegalArgument)
  {
    if k.specifiedType.Some? then Ok(k.specifiedType.value) else Parse(Qualified(chain))
  }

  /** The elements of `chain` are `e`'s ancestors, root first, each the
      parent of the next, and `e` is the last. */
  ghost predicate IsChain(chain: seq<WrappedElement>, e: WrappedElement)
    reads chain
  {
    |chain| > 0 && chain[|chain| - 1] == e && chain[0].parent == null &&
    forall i :: 0 < i < |chain| ==> chain[i].parent == chain[i - 1]
  }

  lemma {:induction false} JoinSnoc(parts: seq<string>, x: string, sep: string)
    requires |parts| > 0
    ensures Join(parts + [x], sep) == Join(parts, sep) + sep + x
    decreases |parts|
  {
    if |parts| == 1 {
      assert (parts + [x])[1..] == [x];
    } else {
      assert (parts + [x])[1..] == parts[1..] + [x];
      JoinSnoc(parts[1..], x, sep);
    }
  }

  /** Nesting: a class or namespace appends "::" and its name to the
      enclosing qualified name (or is the whole name at the top); other
      elements add nothing. */
  lemma QualifiedNested(chain: seq<WrappedKind>, k: WrappedKind)
    ensures Named(k).None? ==> Qualified(chain + [k]) == Qualified(chain)
    ensures Named(k).Some? && NamedParts(chain) == [] ==> Qualified(chain + [k]) == Named(k).value
    ensures Named(k).Some? && NamedParts(chain) != [] ==>
      Qualified(chain + [k]) == Qualified(chain) + "::" + Named(k).value
  {
    assert (chain + [k])[..|chain + [k]| - 1] == chain;
    if Named(k).Some? && NamedParts(chain) != [] {
      JoinSnoc(NamedParts(chain), Named(k).value, "::");
    }
    if Named(k).None? {
      assert NamedParts(chain) + [] == NamedParts(chain);
    }
  }

  /** A class `TestClass` in namespace `TestLib` of a translation unit. */
  lemma QualifiedExample()
    ensures Qualified([OtherKind, NamespaceKind("TestLib"), ClassKind("TestClass", false, None)]) ==
      "TestLib::TestClass"
  {
    var c := [OtherKind, NamespaceKind("TestLib"), ClassKind("TestClass", false, None)];
    assert c[..2] == [OtherKind, NamespaceKind("TestLib")];
    assert c[..2][..1] == [OtherKind];
    assert [OtherKind][..0] == [];
    assert NamedParts([OtherKind]) == [];
    assert NamedParts(c[..2]) == ["TestLib"];
    assert NamedParts(c) == ["TestLib", "TestClass"];
  }

  /** The class's type is that qualified name read back as a type. */
  lemma ClassTypeExample()
    ensures ClassType(ClassKind("TestClass", false, None),
      [OtherKind, NamespaceKind("TestLib"), ClassKind("TestClass", false, None)]) ==
      Ok(Ref("TestLib::TestClass"))
  {
    QualifiedExample();
    assert PlainName("TestLib::TestClass");
    ParsePlain(Ref("TestLib::TestClass"));
  }

  /** A specified type wins over the qualified name. */
  lemma SpecifiedTypeWins(k: WrappedKind, chain: seq<WrappedKind>)
    requires k.ClassKind? && k.specifiedType.Some?
    ensures ClassType(k, chain) == Ok(k.specifiedType.value)
  {
  }
}
