/** The code symbols the writers emit, and how each one writes itself into
    a text builder (`Symbol.build`). */
module Symbols {
  import opened Wrappers
  import opened Text
  import opened CodeStrings

  datatype Symbol =
    | Empty
    | Raw(content: string)
    /** `LocalVar.reference`: the variable's name. */
    | Reference(name: string)
    | Dereference(arg: Symbol)
    | Return(value: Symbol)
    | Delete(target: Symbol)
    | New(target: Symbol)
    | Call(callee: Symbol, args: seq<Symbol>)
    | Dot(first: Symbol, second: Symbol)
    | Arrow(first: Symbol, second: Symbol)
    | Assign(first: Symbol, second: Symbol)
    | Op(operand: string, first: Symbol, second: Symbol)
    | RawCast(castTo: string, target: Symbol)
    /** A `BlockSymbol`: its head, the body symbols and an optional closing symbol. */
    | Block(head: Symbol, body: seq<Symbol>, post: Option<Symbol>)
    /** `extensionMethod(pkg, method)`. */
    | Extension(pkg: string, methodName: string)
    | Import(importName: string)
    /** A Kotlin type: its text and the names it needs imported. */
    | KotlinType(text: string, fqNames: seq<string>)

  /** `blockSemi`: symbols never followed by `;`. */
  predicate BlockSemi(s: Symbol) {
    s.Block? || s.Empty?
  }

  /** The text written when `s` is built into a builder holding `text` at
      `indent` open blocks; `semis` is the root builder's `addSemis`. */
  function Render(s: Symbol, text: string, indent: int, semis: bool): string
    decreases s
  {
    match s
    case Empty => text
    case Raw(c) => PutString(text, indent, c)
    case Reference(n) => PutString(text, indent, n)
    case Dereference(a) => PutString(Render(a, PutString(text, indent, "*("), indent, semis), indent, ")")
    case Return(v) => Render(v, PutString(text, indent, "return "), indent, semis)
    case Delete(v) => Render(v, PutString(text, indent, "delete "), indent, semis)
    case New(v) => Render(v, PutString(text, indent, "new "), indent, semis)
    case Call(c, args) =>
      PutChar(RenderArgs(PutChar(Render(c, text, indent, semis), indent, '('), indent, args, true, semis), indent, ')')
    case Dot(a, b) => Render(b, PutChar(Render(a, text, indent, semis), indent, '.'), indent, semis)
    case Arrow(a, b) => Render(b, PutString(Render(a, text, indent, semis), indent, "->"), indent, semis)
    case Assign(a, b) => Render(b, PutString(Render(a, text, indent, semis), indent, " = "), indent, semis)
    case Op(o, a, b) => Render(b, PutString(Render(a, text, indent, semis), indent, " " + o + " "), indent, semis)
    case RawCast(c, x) =>
      Render(x, PutChar(PutString(PutChar(text, indent, '('), indent, c), indent, ')'), indent, semis)
    case Block(h, body, post) =>
      var afterBody := RenderLines(Render(h, text, indent, semis), indent + 1, body, semis);
      if post.Some? then Render(post.value, afterBody, indent, semis) else afterBody
    case Extension(_, m) => PutString(text, indent, m)
    case Import(target) => PutString(PutString(text, indent, "import "), indent, target)
    case KotlinType(t, _) => PutString(text, indent, t)
  }

  /** Call arguments, `", "` before every one but the first. */
  function RenderArgs(text: string, indent: int, args: seq<Symbol>, first: bool, semis: bool): string
    decreases args
  {
    if |args| == 0 then text
    else
      var before := if first then text else PutString(text, indent, ", ");
      RenderArgs(Render(args[0], before, indent, semis), indent, args[1..], false, semis)
  }

  /** One symbol per line, each followed by `;` when the root builder adds
      semicolons and the symbol is not block-like. */
  function RenderLines(text: string, indent: int, syms: seq<Symbol>, semis: bool): string
    decreases syms
  {
    if |syms| == 0 then text
    else
      var built := Render(syms[0], text, indent, semis);
      var withSemi := if semis && !BlockSemi(syms[0]) then PutChar(built, indent, ';') else built;
      RenderLines(PutChar(withSemi, indent, '\n'), indent, syms[1..], semis)
  }

  /** `symbol.build(builder)`. */
  method Build(s: Symbol, b: CodeStringBuilder, semis: bool)
    modifies b
    decreases s, 1
    ensures b.text == Render(s, old(b.text), old(b.indent), semis) && b.indent == old(b.indent)
  {
    match s
    case Empty =>
    case Raw(c) => b.Append(c);
    case Reference(n) => b.Append(n);
    case Dereference(a) =>
      b.Append("*(");
      Build(a, b, semis);
      b.Append(")");
    case Return(v) =>
      b.Append("return ");
      Build(v, b, semis);
    case Delete(v) =>
      b.Append("delete ");
      Build(v, b, semis);
    case New(v) =>
      b.Append("new ");
      Build(v, b, semis);
    case Extension(_, m) => b.Append(m);
    case Import(target) =>
      b.Append("import ");
      b.Append(target);
    case KotlinType(t, _) => b.Append(t);
    case Dot(_, _) => BuildInfix(s, b, semis);
    case Arrow(_, _) => BuildInfix(s, b, semis);
    case Assign(_, _) => BuildInfix(s, b, semis);
    case Op(_, _, _) => BuildInfix(s, b, semis);
    case _ => BuildCompound(s, b, semis);
  }

  /** The symbols made of two or more parts. */
  method BuildCompound(s: Symbol, b: CodeStringBuilder, semis: bool)
    requires s.Call? || s.RawCast? || s.Block?
    modifies b
    decreases s, 0
    ensures b.text == Render(s, old(b.text), old(b.indent), semis) && b.indent == old(b.indent)
  {
    match s
    case Call(c, args) =>
      Build(c, b, semis);
      b.AppendChar('(');
      BuildArgs(args, b, semis);
      b.AppendChar(')');
    case RawCast(c, x) =>
      b.AppendChar('(');
      b.Append(c);
      b.AppendChar(')');
      Build(x, b, semis);
    case Block(h, body, post) =>
      Build(h, b, semis);
      b.StartBlock();
      BuildLines(body, b, semis);
      b.EndBlock();
      if post.Some? {
        Build(post.value, b, semis);
      }
  }

  /** The symbols joining two parts with a separator. */
  method BuildInfix(s: Symbol, b: CodeStringBuilder, semis: bool)
    requires s.Dot? || s.Arrow? || s.Assign? || s.Op?
    modifies b
    decreases s, 0
    ensures b.text == Render(s, old(b.text), old(b.indent), semis) && b.indent == old(b.indent)
  {
    match s
    case Dot(x, y) =>
      Build(x, b, semis);
      b.AppendChar('.');
      Build(y, b, semis);
    case Arrow(x, y) =>
      Build(x, b, semis);
      b.Append("->");
      Build(y, b, semis);
    case Assign(x, y) =>
      Build(x, b, semis);
      b.Append(" = ");
      Build(y, b, semis);
    case Op(o, x, y) =>
      Build(x, b, semis);
      b.Append(" " + o + " ");
      Build(y, b, semis);
  }

  /** The arguments of a call, `", "` between them. */
  method BuildArgs(args: seq<Symbol>, b: CodeStringBuilder, semis: bool)
    modifies b
    decreases args
    ensures b.text == RenderArgs(old(b.text), old(b.indent), args, true, semis) && b.indent == old(b.indent)
  {
    ghost var goal := RenderArgs(b.text, b.indent, args, true, semis);
    var i := 0;
    while i < |args|
      invariant 0 <= i <= |args| && b.indent == old(b.indent)
      invariant RenderArgs(b.text, b.indent, args[i..], i == 0, semis) == goal
    {
      if i != 0 {
        b.Append(", ");
      }
      Build(args[i], b, semis);
      assert args[i..][1..] == args[i + 1..];
      i := i + 1;
    }
  }

  /** Builds each symbol on a line of its own (the loop shared by
      `CodeBuilderBase.toString` and `BlockSymbol.build`). */
  method BuildLines(syms: seq<Symbol>, b: CodeStringBuilder, semis: bool)
    modifies b
    decreases syms
    ensures b.text == RenderLines(old(b.text), old(b.indent), syms, semis) && b.indent == old(b.indent)
  {
    ghost var goal := RenderLines(b.text, b.indent, syms, semis);
    var i := 0;
    while i < |syms|
      invariant 0 <= i <= |syms| && b.indent == old(b.indent)
      invariant RenderLines(b.text, b.indent, syms[i..], semis) == goal
    {
      Build(syms[i], b, semis);
      if semis && !BlockSemi(syms[i]) {
        b.AppendChar(';');
      }
      b.AppendChar('\n');
      assert syms[i..][1..] == syms[i + 1..];
      i := i + 1;
    }
  }

  // ---------------------------------------------------------------------
  // The plain text of a symbol

  /** The text of a symbol with no indentation: `*(x)`, `name(a, b)`,
      `return x`, `a = b`, `a op b`, `a->b`, `(T)x`, ... */
  function Flat(s: Symbol, semis: bool): string
    decreases s
  {
    match s
    case Empty => ""
    case Raw(c) => c
    case Reference(n) => n
    case Dereference(a) => "*(" + Flat(a, semis) + ")"
    case Return(v) => "return " + Flat(v, semis)
    case Delete(v) => "delete " + Flat(v, semis)
    case New(v) => "new " + Flat(v, semis)
    case Call(c, args) => Flat(c, semis) + "(" + Join(FlatAll(args, semis), ", ") + ")"
    case Dot(a, b) => Flat(a, semis) + "." + Flat(b, semis)
    case Arrow(a, b) => Flat(a, semis) + "->" + Flat(b, semis)
    case Assign(a, b) => Flat(a, semis) + " = " + Flat(b, semis)
    case Op(o, a, b) => Flat(a, semis) + (" " + o + " ") + Flat(b, semis)
    case RawCast(c, x) => "(" + c + ")" + Flat(x, semis)
    case Block(h, body, post) =>
      Flat(h, semis) + FlatLines(body, semis) + (if post.Some? then Flat(post.value, semis) else "")
    case Extension(_, m) => m
    case Import(target) => "import " + target
    case KotlinType(t, _) => t
  }

  function FlatAll(args: seq<Symbol>, semis: bool): (r: seq<string>)
    decreases args
    ensures |r| == |args|
  {
    if |args| == 0 then [] else [Flat(args[0], semis)] + FlatAll(args[1..], semis)
  }

  /** Each symbol's text, its `;` when due, and a newline. */
  function FlatLines(syms: seq<Symbol>, semis: bool): string
    decreases syms
  {
    if |syms| == 0 then ""
    else
      var semi := if semis && !BlockSemi(syms[0]) then ";" else "";
      Flat(syms[0], semis) + semi + "\n" + FlatLines(syms[1..], semis)
  }

  /** The arguments after the first, each preceded by `", "`. */
  function CommaPrefixed(args: seq<Symbol>, semis: bool): string
    decreases args
  {
    if |args| == 0 then "" else ", " + Flat(args[0], semis) + CommaPrefixed(args[1..], semis)
  }

  lemma {:induction false} JoinCommas(args: seq<Symbol>, semis: bool)
    requires |args| >= 1
    ensures Join(FlatAll(args, semis), ", ") == Flat(args[0], semis) + CommaPrefixed(args[1..], semis)
    decreases |args|
  {
    if |args| >= 2 {
      JoinCommas(args[1..], semis);
      assert args[1..][1..] == args[2..];
      assert FlatAll(args, semis)[1..] == FlatAll(args[1..], semis);
    }
  }

  /** No block anywhere inside a symbol. */
  predicate NoBlocks(s: Symbol)
    decreases s
  {
    match s
    case Block(_, _, _) => false
    case Dereference(a) => NoBlocks(a)
    case Return(v) => NoBlocks(v)
    case Delete(v) => NoBlocks(v)
    case New(v) => NoBlocks(v)
    case Call(c, args) => NoBlocks(c) && forall i :: 0 <= i < |args| ==> NoBlocks(args[i])
    case Dot(a, b) => NoBlocks(a) && NoBlocks(b)
    case Arrow(a, b) => NoBlocks(a) && NoBlocks(b)
    case Assign(a, b) => NoBlocks(a) && NoBlocks(b)
    case Op(_, a, b) => NoBlocks(a) && NoBlocks(b)
    case RawCast(_, x) => NoBlocks(x)
    case _ => true
  }

  // ---------------------------------------------------------------------
  // Building writes the plain text

  /** Regrouping a chain of appends to the right: the text built so far,
      then the pieces one call appends. The proofs below append to the
      builder's text one piece at a time and use these to match the
      grouping of the flat rendering. */
  lemma Reassociate3(a: string, b: string, c: string)
    ensures a + b + c == a + (b + c)
  {
  }

  lemma Reassociate4(a: string, b: string, c: string, d: string)
    ensures a + b + c + d == a + (b + c + d)
  {
  }

  lemma Reassociate5(a: string, b: string, c: string, d: string, e: string)
    ensures a + b + c + d + e == a + (b + c + d + e)
  {
  }

  /** A piece without newlines appended by `append(str)`. */
  lemma PieceString(text: string, indent: int, x: string)
    requires '\n' !in x
    ensures PutString(text, indent, x) == PutPiece(text, indent, x)
  {
    PutStringIsPutChars(text, indent, x);
    PutPieceIsPutChars(text, indent, x);
  }

  lemma PieceChar(text: string, indent: int, c: char)
    requires c != '\n'
    ensures PutChar(text, indent, c) == PutPiece(text, indent, [c])
  {
  }

  /** Two pieces of one line are written as one piece: only the first
      non-empty one can be indented. */
  lemma PieceCompose(text: string, indent: int, x: string, y: string)
    requires '\n' !in x
    ensures PutPiece(PutPiece(text, indent, x), indent, y) == PutPiece(text, indent, x + y)
  {
    if x == "" {
      assert x + y == y;
    } else {
      var t1 := CheckNewLine(text, indent) + x;
      assert t1[|t1| - 1] == x[|x| - 1];
      assert x[|x| - 1] in x;
      if y != "" {
        Reassociate3(CheckNewLine(text, indent), x, y);
      }
    }
  }

  lemma TopString(text: string, x: string)
    ensures PutString(text, 0, x) == text + x
  {
    PutStringIsPutChars(text, 0, x);
    NoIndentAtTop(text, x);
  }

  lemma TopChar(text: string, c: char)
    ensures PutChar(text, 0, c) == text + [c]
  {
  }

  /** A symbol whose text has no newline is written as one piece of a line:
      indented by four spaces per open block when it starts a line, appended
      as it is otherwise. */
  lemma {:induction false} RenderOneLine(s: Symbol, text: string, indent: int, semis: bool)
    requires '\n' !in Flat(s, semis)
    ensures Render(s, text, indent, semis) == PutPiece(text, indent, Flat(s, semis))
    decreases s, 1
  {
    match s
    case Empty =>
    case Raw(c) => PieceString(text, indent, c);
    case Reference(n) => PieceString(text, indent, n);
    case Dereference(_) => UnaryOneLine(s, text, indent, semis);
    case Return(_) => UnaryOneLine(s, text, indent, semis);
    case Delete(_) => UnaryOneLine(s, text, indent, semis);
    case New(_) => UnaryOneLine(s, text, indent, semis);
    case Call(c, args) => CallOneLine(c, args, text, indent, semis);
    case Dot(_, _) => PairOneLine(s, text, indent, semis);
    case Arrow(_, _) => PairOneLine(s, text, indent, semis);
    case Assign(_, _) => PairOneLine(s, text, indent, semis);
    case Op(_, _, _) => PairOneLine(s, text, indent, semis);
    case RawCast(_, _) => PairOneLine(s, text, indent, semis);
    case Block(_, _, _) => PairOneLine(s, text, indent, semis);
    case Extension(_, m) => PieceString(text, indent, m);
    case Import(target) =>
      PieceString(text, indent, "import ");
      PieceString(PutPiece(text, indent, "import "), indent, target);
      PieceCompose(text, indent, "import ", target);
    case KotlinType(t, _) => PieceString(text, indent, t);
  }

  lemma {:induction false} UnaryOneLine(s: Symbol, text: string, indent: int, semis: bool)
    requires s.Dereference? || s.Return? || s.Delete? || s.New?
    requires '\n' !in Flat(s, semis)
    ensures Render(s, text, indent, semis) == PutPiece(text, indent, Flat(s, semis))
    decreases s, 0
  {
    var (pre, inner, post) := match s
      case Dereference(a) => ("*(", a, ")")
      case Return(v) => ("return ", v, "")
      case Delete(v) => ("delete ", v, "")
      case New(v) => ("new ", v, "");
    assert Flat(s, semis) == pre + Flat(inner, semis) + post;
    var t1 := PutString(text, indent, pre);
    PieceString(text, indent, pre);
    RenderOneLine(inner, t1, indent, semis);
    PieceCompose(text, indent, pre, Flat(inner, semis));
    var t2 := Render(inner, t1, indent, semis);
    if s.Dereference? {
      PieceString(t2, indent, post);
      PieceCompose(text, indent, pre + Flat(inner, semis), post);
    } else {
      assert pre + Flat(inner, semis) + post == pre + Flat(inner, semis);
    }
  }

  lemma {:induction false} PairOneLine(s: Symbol, text: string, indent: int, semis: bool)
    requires s.Dot? || s.Arrow? || s.Assign? || s.Op? || s.RawCast? || s.Block?
    requires '\n' !in Flat(s, semis)
    ensures Render(s, text, indent, semis) == PutPiece(text, indent, Flat(s, semis))
    decreases s, 0
  {
    match s
    case Dot(a, b) =>
      var t1 := Render(a, text, indent, semis);
      RenderOneLine(a, text, indent, semis);
      PieceChar(t1, indent, '.');
      PieceCompose(text, indent, Flat(a, semis), ".");
      RenderOneLine(b, PutChar(t1, indent, '.'), indent, semis);
      PieceCompose(text, indent, Flat(a, semis) + ".", Flat(b, semis));
    case Arrow(a, b) =>
      var t1 := Render(a, text, indent, semis);
      RenderOneLine(a, text, indent, semis);
      PieceString(t1, indent, "->");
      PieceCompose(text, indent, Flat(a, semis), "->");
      RenderOneLine(b, PutString(t1, indent, "->"), indent, semis);
      PieceCompose(text, indent, Flat(a, semis) + "->", Flat(b, semis));
    case Assign(a, b) =>
      var t1 := Render(a, text, indent, semis);
      RenderOneLine(a, text, indent, semis);
      PieceString(t1, indent, " = ");
      PieceCompose(text, indent, Flat(a, semis), " = ");
      RenderOneLine(b, PutString(t1, indent, " = "), indent, semis);
      PieceCompose(text, indent, Flat(a, semis) + " = ", Flat(b, semis));
    case Op(o, a, b) =>
      var t1 := Render(a, text, indent, semis);
      RenderOneLine(a, text, indent, semis);
      PieceString(t1, indent, " " + o + " ");
      PieceCompose(text, indent, Flat(a, semis), " " + o + " ");
      RenderOneLine(b, PutString(t1, indent, " " + o + " "), indent, semis);
      PieceCompose(text, indent, Flat(a, semis) + (" " + o + " "), Flat(b, semis));
    case RawCast(c, x) =>
      var t1 := PutChar(text, indent, '(');
      PieceChar(text, indent, '(');
      PieceString(t1, indent, c);
      PieceCompose(text, indent, "(", c);
      var t2 := PutString(t1, indent, c);
      PieceChar(t2, indent, ')');
      PieceCompose(text, indent, "(" + c, ")");
      RenderOneLine(x, PutChar(t2, indent, ')'), indent, semis);
      PieceCompose(text, indent, "(" + c + ")", Flat(x, semis));
    case Block(h, body, post) =>
      if |body| > 0 {
        FlatLinesEnd(body, semis);
        assert false;
      }
      RenderOneLine(h, text, indent, semis);
      assert Flat(h, semis) + FlatLines(body, semis) == Flat(h, semis);
      if post.Some? {
        RenderOneLine(post.value, Render(h, text, indent, semis), indent, semis);
        PieceCompose(text, indent, Flat(h, semis), Flat(post.value, semis));
      } else {
        assert Flat(s, semis) == Flat(h, semis) + "";
      }
  }

  lemma {:induction false} CallOneLine(c: Symbol, args: seq<Symbol>, text: string, indent: int, semis: bool)
    requires '\n' !in Flat(Call(c, args), semis)
    ensures Render(Call(c, args), text, indent, semis) == PutPiece(text, indent, Flat(Call(c, args), semis))
    decreases Call(c, args), 0
  {
    var inner := Join(FlatAll(args, semis), ", ");
    var fc := Flat(c, semis);
    assert Flat(Call(c, args), semis) == fc + "(" + inner + ")";
    var t0 := Render(c, text, indent, semis);
    RenderOneLine(c, text, indent, semis);
    var t1 := PutChar(t0, indent, '(');
    PieceChar(t0, indent, '(');
    PieceCompose(text, indent, fc, "(");
    ArgsOneLine(text, indent, fc + "(", t1, args, semis);
    PieceChar(RenderArgs(t1, indent, args, true, semis), indent, ')');
    PieceCompose(text, indent, fc + "(" + inner, ")");
  }

  /** The arguments of a call, written after `pre` has been written. */
  lemma {:induction false} ArgsOneLine(text: string, indent: int, pre: string, t1: string, args: seq<Symbol>, semis: bool)
    requires t1 == PutPiece(text, indent, pre)
    requires '\n' !in pre && '\n' !in Join(FlatAll(args, semis), ", ")
    ensures RenderArgs(t1, indent, args, true, semis) == PutPiece(text, indent, pre + Join(FlatAll(args, semis), ", "))
    decreases args, 2
  {
    if |args| > 0 {
      var fa := Flat(args[0], semis);
      var rest := CommaPrefixed(args[1..], semis);
      JoinCommas(args, semis);
      RenderOneLine(args[0], t1, indent, semis);
      PieceCompose(text, indent, pre, fa);
      RenderArgsOneLine(Render(args[0], t1, indent, semis), indent, args[1..], semis);
      PieceCompose(text, indent, pre + fa, rest);
      Reassociate3(pre, fa, rest);
    } else {
      assert pre + Join(FlatAll(args, semis), ", ") == pre;
    }
  }

  lemma {:induction false} RenderArgsOneLine(text: string, indent: int, args: seq<Symbol>, semis: bool)
    requires '\n' !in CommaPrefixed(args, semis)
    ensures RenderArgs(text, indent, args, false, semis) == PutPiece(text, indent, CommaPrefixed(args, semis))
    decreases args
  {
    if |args| > 0 {
      var fa := Flat(args[0], semis);
      var rest := CommaPrefixed(args[1..], semis);
      assert CommaPrefixed(args, semis) == ", " + fa + rest;
      var t1 := PutString(text, indent, ", ");
      PieceString(text, indent, ", ");
      RenderOneLine(args[0], t1, indent, semis);
      PieceCompose(text, indent, ", ", fa);
      RenderArgsOneLine(Render(args[0], t1, indent, semis), indent, args[1..], semis);
      PieceCompose(text, indent, ", " + fa, rest);
    }
  }

  /** Corollary: in the middle of a line such a symbol writes exactly its text. */
  lemma RenderMidLine(s: Symbol, text: string, indent: int, semis: bool)
    requires !AtLineStart(text) && '\n' !in Flat(s, semis)
    ensures Render(s, text, indent, semis) == text + Flat(s, semis)
  {
    RenderOneLine(s, text, indent, semis);
  }

  /** Corollary: at the start of a line it is preceded by the indentation. */
  lemma RenderAtLineStart(s: Symbol, text: string, indent: int, semis: bool)
    requires AtLineStart(text) && '\n' !in Flat(s, semis) && Flat(s, semis) != ""
    ensures Render(s, text, indent, semis) == text + Spaces(indent) + Flat(s, semis)
  {
    RenderOneLine(s, text, indent, semis);
  }

  // ---------------------------------------------------------------------
  // Lines and blocks

  /** One line of a block body: its indentation (an empty line has none),
      its text and a newline. */
  function Line(indent: int, content: string): string {
    (if content == "" then "" else Spaces(indent) + content) + "\n"
  }

  function Semi(s: Symbol, semis: bool): string {
    if semis && !BlockSemi(s) then ";" else ""
  }

  /** The body lines of a block at `indent` open blocks. */
  function IndentedLines(indent: int, syms: seq<Symbol>, semis: bool): string
    decreases syms
  {
    if |syms| == 0 then ""
    else Line(indent, Flat(syms[0], semis) + Semi(syms[0], semis)) + IndentedLines(indent, syms[1..], semis)
  }

  /** Every one-line symbol of a body starts its own line with four spaces
      per open block and ends with its `;` (when due) and a newline. */
  lemma {:induction false} RenderLinesIndented(text: string, indent: int, syms: seq<Symbol>, semis: bool)
    requires AtLineStart(text)
    requires forall i :: 0 <= i < |syms| ==> '\n' !in Flat(syms[i], semis)
    ensures RenderLines(text, indent, syms, semis) == text + IndentedLines(indent, syms, semis)
    ensures AtLineStart(text + IndentedLines(indent, syms, semis))
    decreases syms
  {
    if |syms| == 0 {
      assert text + "" == text;
    } else {
      var s := syms[0];
      var line := Flat(s, semis) + Semi(s, semis);
      var built := Render(s, text, indent, semis);
      var withSemi := if semis && !BlockSemi(s) then PutChar(built, indent, ';') else built;
      var next := PutChar(withSemi, indent, '\n');
      LineStep(text, indent, s, semis);
      RenderLinesIndented(next, indent, syms[1..], semis);
      Reassociate3(text, Line(indent, line), IndentedLines(indent, syms[1..], semis));
    }
  }

  /** One symbol of a body: its line, its `;` when due, and the newline. */
  lemma LineStep(text: string, indent: int, s: Symbol, semis: bool)
    requires AtLineStart(text) && '\n' !in Flat(s, semis)
    ensures var built := Render(s, text, indent, semis);
      var withSemi := if semis && !BlockSemi(s) then PutChar(built, indent, ';') else built;
      PutChar(withSemi, indent, '\n') == text + Line(indent, Flat(s, semis) + Semi(s, semis))
  {
    RenderOneLine(s, text, indent, semis);
    PieceLine(text, indent, Flat(s, semis), semis && !BlockSemi(s));
  }

  /** A piece of text, then `;` when `semi`, then a newline, written at the
      start of a line. */
  lemma PieceLine(text: string, indent: int, f: string, semi: bool)
    requires AtLineStart(text) && '\n' !in f
    ensures var built := PutPiece(text, indent, f);
      var withSemi := if semi then PutChar(built, indent, ';') else built;
      PutChar(withSemi, indent, '\n') == text + Line(indent, f + (if semi then ";" else ""))
  {
    var line := f + (if semi then ";" else "");
    var built := PutPiece(text, indent, f);
    var withSemi := if semi then PutChar(built, indent, ';') else built;
    if semi {
      PieceChar(built, indent, ';');
      PieceCompose(text, indent, f, ";");
    } else {
      assert line == f;
    }
    assert withSemi == PutPiece(text, indent, line);
    if line != "" {
      Reassociate3(text, Spaces(indent), line);
    }
  }

  /** A block whose head is a line `head` ending in a newline and whose
      closing symbol is `post`: the head continues the current line, each
      body symbol takes a line indented one block deeper, and the closing
      text starts a line at the block's own indentation. */
  lemma BlockLayout(head: string, body: seq<Symbol>, post: string, text: string, indent: int, semis: bool)
    requires '\n' !in head && '\n' !in post
    requires forall i :: 0 <= i < |body| ==> '\n' !in Flat(body[i], semis)
    ensures Render(Block(Raw(head + "\n"), body, Some(Raw(post))), text, indent, semis)
      == PutPiece(text, indent, head) + "\n" + IndentedLines(indent + 1, body, semis)
         + (if post == "" then "" else Spaces(indent) + post)
  {
    var t1 := PutString(text, indent, head + "\n");
    PutStringIsPutChars(text, indent, head + "\n");
    PutCharsConcat(text, indent, head, "\n");
    PutPieceIsPutChars(text, indent, head);
    assert t1 == PutPiece(text, indent, head) + "\n";
    RenderLinesIndented(t1, indent + 1, body, semis);
    var t2 := t1 + IndentedLines(indent + 1, body, semis);
    PieceString(t2, indent, post);
  }

  lemma FreeCallLine()
    ensures IndentedLines(1, [Call(Reference("free"), [Reference("x")])], false) == "    free(x)\n"
  {
    var call := Call(Reference("free"), [Reference("x")]);
    assert FlatAll([Reference("x")], false) == ["x"];
    assert Flat(call, false) == "free(x)";
    assert Flat(call, false) + Semi(call, false) == "free(x)";
  }

  /** `defer {\n` with one call in its body and `}` as its closing symbol. */
  lemma DeferBlockExample(block: Symbol)
    requires block == Block(Raw("defer {\n"), [Call(Reference("free"), [Reference("x")])], Some(Raw("}")))
    ensures Render(block, "", 0, false) == "defer {" + "\n" + "    free(x)\n" + "}"
  {
    FreeCallLine();
    assert "defer {" + "\n" == "defer {\n";
    BlockLayout("defer {", block.body, "}", "", 0, false);
    assert PutPiece("", 0, "defer {") == "defer {";
    assert Spaces(0) + "}" == "}";
  }




  lemma {:induction false} FlatLinesEnd(syms: seq<Symbol>, semis: bool)
    requires |syms| > 0
    ensures |FlatLines(syms, semis)| > 0 && FlatLines(syms, semis)[|FlatLines(syms, semis)| - 1] == '\n'
    decreases syms
  {
    if |syms| > 1 {
      FlatLinesEnd(syms[1..], semis);
    }
  }

  /** With no open block, a symbol without blocks writes exactly its text. */
  lemma {:induction false} RenderAtTop(s: Symbol, text: string, semis: bool)
    requires NoBlocks(s)
    ensures Render(s, text, 0, semis) == text + Flat(s, semis)
    decreases s, 1
  {
    match s
    case Empty =>
    case Raw(c) => TopString(text, c);
    case Reference(n) => TopString(text, n);
    case Dereference(a) =>
      TopString(text, "*(");
      RenderAtTop(a, text + "*(", semis);
      TopString(text + "*(" + Flat(a, semis), ")");
      Reassociate4(text, "*(", Flat(a, semis), ")");
    case Return(v) =>
      TopString(text, "return ");
      RenderAtTop(v, text + "return ", semis);
      Reassociate3(text, "return ", Flat(v, semis));
    case Delete(v) =>
      TopString(text, "delete ");
      RenderAtTop(v, text + "delete ", semis);
      Reassociate3(text, "delete ", Flat(v, semis));
    case New(v) =>
      TopString(text, "new ");
      RenderAtTop(v, text + "new ", semis);
      Reassociate3(text, "new ", Flat(v, semis));
    case Call(c, args) => CallAtTop(c, args, text, semis);
    case Dot(_, _) => InfixAtTop(s, text, semis);
    case Arrow(_, _) => InfixAtTop(s, text, semis);
    case Assign(_, _) => InfixAtTop(s, text, semis);
    case Op(_, _, _) => InfixAtTop(s, text, semis);
    case RawCast(_, _) => InfixAtTop(s, text, semis);
    case Extension(_, m) => TopString(text, m);
    case Import(target) =>
      TopString(text, "import ");
      TopString(text + "import ", target);
    case KotlinType(t, _) => TopString(text, t);
  }

  /** The two-part symbols and the cast, with no open block. */
  lemma {:induction false} InfixAtTop(s: Symbol, text: string, semis: bool)
    requires NoBlocks(s) && (s.Dot? || s.Arrow? || s.Assign? || s.Op? || s.RawCast?)
    ensures Render(s, text, 0, semis) == text + Flat(s, semis)
    decreases s, 0
  {
    match s
    case Dot(a, b) =>
      RenderAtTop(a, text, semis);
      TopChar(text + Flat(a, semis), '.');
      RenderAtTop(b, text + Flat(a, semis) + ".", semis);
      Reassociate4(text, Flat(a, semis), ".", Flat(b, semis));
    case Arrow(a, b) =>
      RenderAtTop(a, text, semis);
      TopString(text + Flat(a, semis), "->");
      RenderAtTop(b, text + Flat(a, semis) + "->", semis);
      Reassociate4(text, Flat(a, semis), "->", Flat(b, semis));
    case Assign(a, b) =>
      RenderAtTop(a, text, semis);
      TopString(text + Flat(a, semis), " = ");
      RenderAtTop(b, text + Flat(a, semis) + " = ", semis);
      Reassociate4(text, Flat(a, semis), " = ", Flat(b, semis));
    case Op(o, a, b) =>
      RenderAtTop(a, text, semis);
      TopString(text + Flat(a, semis), " " + o + " ");
      RenderAtTop(b, text + Flat(a, semis) + (" " + o + " "), semis);
      Reassociate4(text, Flat(a, semis), " " + o + " ", Flat(b, semis));
    case RawCast(c, x) =>
      TopChar(text, '(');
      TopString(text + "(", c);
      TopChar(text + "(" + c, ')');
      RenderAtTop(x, text + "(" + c + ")", semis);
      Reassociate5(text, "(", c, ")", Flat(x, semis));
  }

  lemma {:induction false} CallAtTop(c: Symbol, args: seq<Symbol>, text: string, semis: bool)
    requires NoBlocks(Call(c, args))
    ensures Render(Call(c, args), text, 0, semis) == text + Flat(Call(c, args), semis)
    decreases Call(c, args), 0
  {
    var inner := Join(FlatAll(args, semis), ", ");
    assert Flat(Call(c, args), semis) == Flat(c, semis) + "(" + inner + ")";
    RenderAtTop(c, text, semis);
    var t1 := text + Flat(c, semis) + "(";
    TopChar(text + Flat(c, semis), '(');
    if |args| > 0 {
      JoinCommas(args, semis);
      RenderAtTop(args[0], t1, semis);
      RenderArgsAtTop(t1 + Flat(args[0], semis), args[1..], semis);
      Reassociate3(t1, Flat(args[0], semis), CommaPrefixed(args[1..], semis));
    }
    assert RenderArgs(t1, 0, args, true, semis) == t1 + inner;
    TopChar(t1 + inner, ')');
    Reassociate5(text, Flat(c, semis), "(", inner, ")");
  }

  lemma {:induction false} RenderArgsAtTop(text: string, args: seq<Symbol>, semis: bool)
    requires forall i :: 0 <= i < |args| ==> NoBlocks(args[i])
    ensures RenderArgs(text, 0, args, false, semis) == text + CommaPrefixed(args, semis)
    decreases args
  {
    if |args| > 0 {
      var t1 := text + ", ";
      TopString(text, ", ");
      RenderAtTop(args[0], t1, semis);
      RenderArgsAtTop(t1 + Flat(args[0], semis), args[1..], semis);
      Reassociate4(text, ", ", Flat(args[0], semis), CommaPrefixed(args[1..], semis));
    }
  }

  /** With no open block, lines of block-free symbols are written as each
      symbol's text, its `;` when due, and a newline. */
  lemma {:induction false} RenderLinesAtTop(text: string, syms: seq<Symbol>, semis: bool)
    requires forall i :: 0 <= i < |syms| ==> NoBlocks(syms[i])
    ensures RenderLines(text, 0, syms, semis) == text + FlatLines(syms, semis)
    decreases syms
  {
    if |syms| > 0 {
      var built := Render(syms[0], text, 0, semis);
      RenderAtTop(syms[0], text, semis);
      var semi := if semis && !BlockSemi(syms[0]) then ";" else "";
      var withSemi := if semis && !BlockSemi(syms[0]) then PutChar(built, 0, ';') else built;
      TopChar(built, ';');
      assert withSemi == text + Flat(syms[0], semis) + semi;
      NewlineNotIndented(withSemi, 0);
      RenderLinesAtTop(withSemi + "\n", syms[1..], semis);
      Reassociate5(text, Flat(syms[0], semis), semi, "\n", FlatLines(syms[1..], semis));
    }
  }
}
