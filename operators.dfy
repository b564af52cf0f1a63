/** The C++ operators the generator knows: each is recognised from a
    method's name (`operator` followed by the C++ symbol) and its number of
    declared arguments, and gets a C name and a Kotlin form. */
module Operators {
  import opened Wrappers
  import opened Text
  import opened CamelCase

  /** Binary and assignment operators take one declared argument, unary
      operators none (`this` is not declared). */
  datatype Kind = Binary | Unary | Assignment

  /** How the operator appears on the Kotlin side. */
  datatype KotlinOperatorType =
    | KotlinOperator(name: string)
    | InfixMethod(name: string)
    | BasicWithDummyMethod(name: string)
    | BasicMethod(name: string)

  datatype Operator = Operator(
    kind: Kind,
    cppOp: string,
    cOp: string,
    kotlinType: KotlinOperatorType,
    supportsDirectCall: bool)

  const OPERATOR_PREFIX: string := "operator"

  function BinaryOp(cppOp: string, cOp: string, k: KotlinOperatorType): Operator {
    Operator(Binary, cppOp, cOp, k, true)
  }

  const MINUS: Operator := BinaryOp("-", "Minus", KotlinOperator("minus"))
  const PLUS: Operator := BinaryOp("+", "Plus", KotlinOperator("plus"))
  const TIMES: Operator := BinaryOp("*", "Times", KotlinOperator("times"))
  const DIV: Operator := BinaryOp("/", "Divide", KotlinOperator("div"))
  const MOD: Operator := BinaryOp("%", "Mod", KotlinOperator("rem"))
  const EQ: Operator := BinaryOp("==", "Eq", InfixMethod("eq"))
  const NEQ: Operator := BinaryOp("!=", "Neq", InfixMethod("neq"))
  const LT: Operator := BinaryOp("<", "Lt", InfixMethod("lt"))
  const GT: Operator := BinaryOp(">", "Gt", InfixMethod("gt"))
  const LTEQ: Operator := BinaryOp("<=", "Lteq", InfixMethod("lteq"))
  const GTEQ: Operator := BinaryOp(">=", "Gteq", InfixMethod("gteq"))
  const BINARY_AND: Operator := BinaryOp("&&", "Binary_And", InfixMethod("binAnd"))
  const BINARY_OR: Operator := BinaryOp("||", "Binary_Or", InfixMethod("binOr"))
  const AND: Operator := BinaryOp("&", "And", InfixMethod("and"))
  const OR: Operator := BinaryOp("|", "Or", InfixMethod("or"))
  const XOR: Operator := BinaryOp("^", "Xor", InfixMethod("xor"))
  const SHL: Operator := BinaryOp("<<", "Shl", InfixMethod("shl"))
  const SHR: Operator := BinaryOp(">>", "Shr", InfixMethod("shr"))
  const IND: Operator := Operator(Binary, "[]", "Ind", KotlinOperator("get"), false)
  const POST_INC: Operator :=
    Operator(Binary, "++", "PostIncrement", BasicWithDummyMethod("postIncrement"), false)
  const POST_DEC: Operator :=
    Operator(Binary, "--", "PostDecrement", BasicWithDummyMethod("postDecrement"), false)

  const INC: Operator := Operator(Unary, "++", "Increment", KotlinOperator("inc"), false)
  const DEC: Operator := Operator(Unary, "--", "Decrement", KotlinOperator("dec"), false)
  const UNARY_MINUS: Operator := Operator(Unary, "-", "UnaryMinus", KotlinOperator("unaryMinus"), false)
  const UNARY_PLUS: Operator := Operator(Unary, "+", "UnaryPlus", KotlinOperator("unaryPlus"), false)
  const NOT: Operator := Operator(Unary, "!", "Not", KotlinOperator("not"), false)
  const INV: Operator := Operator(Unary, "~", "Inv", BasicMethod("inv"), false)
  const REFERENCE: Operator := Operator(Unary, "*", "Reference", BasicMethod("reference"), false)
  const POINTER_REFERENCE: Operator :=
    Operator(Unary, "->", "PointerReference", BasicMethod("pointer_reference"), false)

  const ASSIGN: Operator := Operator(Assignment, "=", "Assign", InfixMethod("assign"), false)
  const PLUS_EQUALS: Operator :=
    Operator(Assignment, "+=", "PlusEquals", InfixMethod("plusEquals"), false)

  /** The table in the order it is searched. */
  const ALL_OPERATORS: seq<Operator> := [
    MINUS, PLUS, TIMES, DIV, MOD, EQ, NEQ, LT, GT, LTEQ, GTEQ, BINARY_AND,
    BINARY_OR, AND, OR, XOR, SHL, SHR, IND, POST_INC, POST_DEC,
    INC, DEC, UNARY_MINUS, UNARY_PLUS, NOT, INV, REFERENCE, POINTER_REFERENCE,
    ASSIGN, PLUS_EQUALS
  ]

  /** `matches`: the arity fits and the rest of the name is the C++ symbol. */
  predicate Matches(op: Operator, name: string, argCount: nat)
    requires StartsWith(name, OPERATOR_PREFIX)
  {
    (if op.kind == Unary then argCount == 0 else argCount == 1)
    && name[|OPERATOR_PREFIX|..] == op.cppOp
  }

  /** `find`: the index of the first operator of `ops` that matches. */
  function FindFirst(ops: seq<Operator>, name: string, argCount: nat): (r: Option<nat>)
    requires StartsWith(name, OPERATOR_PREFIX)
    ensures r.Some? ==> r.value < |ops| && Matches(ops[r.value], name, argCount)
    ensures r.Some? ==> forall j :: 0 <= j < r.value ==> !Matches(ops[j], name, argCount)
    ensures r.None? <==> forall j :: 0 <= j < |ops| ==> !Matches(ops[j], name, argCount)
    decreases |ops|
  {
    if |ops| == 0 then None
    else if Matches(ops[0], name, argCount) then Some(0)
    else
      var rest := FindFirst(ops[1..], name, argCount);
      if rest.None? then None else Some(rest.value + 1)
  }

  /** `Operator.from`: the operator a method is, if any. */
  function From(name: string, argCount: nat): (r: Option<Operator>)
    ensures !StartsWith(name, OPERATOR_PREFIX) ==> r.None?
    ensures r.Some? ==>
      StartsWith(name, OPERATOR_PREFIX) && r.value in ALL_OPERATORS && Matches(r.value, name, argCount)
  {
    if !StartsWith(name, OPERATOR_PREFIX) then None
    else
      var i := FindFirst(ALL_OPERATORS, name, argCount);
      if i.None? then None else Some(ALL_OPERATORS[i.value])
  }

  /** `name`: the class's C name, `_op_` and the operator's C word in
      snake case. */
  function Name(cName: string, op: Operator): string {
    cName + "_op_" + Snake(op.cOp)
  }

  /** `From` picks the first operator of the table that matches: when the
      one at `k` matches and none before it does, that is the result. */
  lemma FromFirstMatch(name: string, argCount: nat, k: nat)
    requires StartsWith(name, OPERATOR_PREFIX)
    requires k < |ALL_OPERATORS| && Matches(ALL_OPERATORS[k], name, argCount)
    requires forall j :: 0 <= j < k ==> !Matches(ALL_OPERATORS[j], name, argCount)
    ensures From(name, argCount) == Some(ALL_OPERATORS[k])
  {
    FindFirstIs(ALL_OPERATORS, name, argCount, k);
  }

  lemma FindFirstIs(ops: seq<Operator>, name: string, argCount: nat, k: nat)
    requires StartsWith(name, OPERATOR_PREFIX)
    requires k < |ops| && Matches(ops[k], name, argCount)
    requires forall j :: 0 <= j < k ==> !Matches(ops[j], name, argCount)
    ensures FindFirst(ops, name, argCount) == Some(k)
  {
  }

  /** The symbol after `operator` in `"operator" + sym`. */
  lemma OperatorName(sym: string)
    ensures StartsWith(OPERATOR_PREFIX + sym, OPERATOR_PREFIX)
    ensures (OPERATOR_PREFIX + sym)[|OPERATOR_PREFIX|..] == sym
  {
    assert (OPERATOR_PREFIX + sym)[..|OPERATOR_PREFIX|] == OPERATOR_PREFIX;
  }

  /** A method whose name does not start with `operator` is no operator. */
  lemma PlainMethodNoOperator()
    ensures From("getPrivateString", 0) == None
  {
    assert "getPrivateString"[..8][0] != OPERATOR_PREFIX[0];
  }

  /** `-` with one argument is subtraction, with none it is negation. */
  lemma MinusBinary()
    ensures From(OPERATOR_PREFIX + "-", 1) == Some(MINUS)
  {
    OperatorName("-");
    FromFirstMatch(OPERATOR_PREFIX + "-", 1, 0);
  }

  lemma MinusUnary()
    ensures From(OPERATOR_PREFIX + "-", 0) == Some(UNARY_MINUS)
  {
    OperatorName("-");
    FromFirstMatch(OPERATOR_PREFIX + "-", 0, 23);
  }

  /** `operator++(int)` declares the dummy argument: it is the post-increment. */
  lemma IncrementPost()
    ensures From(OPERATOR_PREFIX + "++", 1) == Some(POST_INC)
  {
    OperatorName("++");
    FromFirstMatch(OPERATOR_PREFIX + "++", 1, 19);
  }

  lemma IncrementPre()
    ensures From(OPERATOR_PREFIX + "++", 0) == Some(INC)
  {
    OperatorName("++");
    FromFirstMatch(OPERATOR_PREFIX + "++", 0, 21);
  }

  /** `*` with one argument is multiplication, with none it is `*this`. */
  lemma StarBinary()
    ensures From(OPERATOR_PREFIX + "*", 1) == Some(TIMES)
  {
    OperatorName("*");
    FromFirstMatch(OPERATOR_PREFIX + "*", 1, 2);
  }

  lemma StarUnary()
    ensures From(OPERATOR_PREFIX + "*", 0) == Some(REFERENCE)
  {
    OperatorName("*");
    FromFirstMatch(OPERATOR_PREFIX + "*", 0, 27);
  }

  /** The C names of the post-increment and of `&&`. */
  lemma NameExamples(cName: string)
    ensures Name(cName, POST_INC) == cName + "_op_" + "post" + "_" + "increment"
    ensures Name(cName, BINARY_AND) == cName + "_op_" + "binary_and"
  {
    PostIncrementSnake();
    BinaryAndSnake();
  }

  /** Only binary operators can be written as a C++ operator expression on
      the dereferenced receiver; the subscript and the postfix increment and
      decrement are the binary ones that cannot. */
  lemma DirectCallOperators(op: Operator)
    requires op in ALL_OPERATORS
    ensures op.supportsDirectCall <==> op.kind == Binary && op != IND && op != POST_INC && op != POST_DEC
  {
    var i :| 0 <= i < |ALL_OPERATORS| && ALL_OPERATORS[i] == op;
    if i < 18 {
      assert op.supportsDirectCall && op.kind == Binary;
      assert op.cOp != "Ind" && op.cOp != "PostIncrement" && op.cOp != "PostDecrement";
    } else if i < 21 {
      assert !op.supportsDirectCall;
      assert op == IND || op == POST_INC || op == POST_DEC;
    } else {
      assert !op.supportsDirectCall && op.kind != Binary;
    }
  }

  /** The table's assignment operators are `=` and `+=`. */
  lemma AssignmentsNamed(op: Operator)
    requires op in ALL_OPERATORS
    ensures op.kind == Assignment <==> op == ASSIGN || op == PLUS_EQUALS
  {
  }

  /** The names and arity under which `from` yields an assignment operator. */
  predicate IsAssignmentName(name: string, argCount: nat) {
    argCount == 1 && (name == OPERATOR_PREFIX + "=" || name == OPERATOR_PREFIX + "+=")
  }

  /** `from` yields an assignment operator exactly for `operator=` and
      `operator+=` with one argument: no other entry of the table has
      those symbols, and only those two entries are assignments. */
  lemma AssignmentByName(name: string, argCount: nat)
    ensures (From(name, argCount).Some? && From(name, argCount).value.kind == Assignment)
      <==> IsAssignmentName(name, argCount)
  {
    if IsAssignmentName(name, argCount) {
      if name == OPERATOR_PREFIX + "=" {
        OperatorName("=");
        FromFirstMatch(name, argCount, 29);
      } else {
        OperatorName("+=");
        FromFirstMatch(name, argCount, 30);
      }
    }
    var r := From(name, argCount);
    if r.Some? && r.value.kind == Assignment {
      var i := FindFirst(ALL_OPERATORS, name, argCount).value;
      OnlyTwoAssignments(i);
      assert name == name[..|OPERATOR_PREFIX|] + name[|OPERATOR_PREFIX|..];
    }
  }

  /** The assignments are the last two entries of the table. */
  lemma OnlyTwoAssignments(i: nat)
    requires i < |ALL_OPERATORS| && ALL_OPERATORS[i].kind == Assignment
    ensures i == 29 || i == 30
  {
  }
}
