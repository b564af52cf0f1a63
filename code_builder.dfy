/** The code builders the writers add symbols to: the root builder
    (`CodeBuilderBase`), which owns the scope chain and turns its symbols
    into text, and the builder of a block's body (`BlockSymbol`). */
module CodeBuilders {
  import opened Wrappers
  import opened CodeStrings
  import opened Symbols
  import opened Scopes

  class CodeBuilderBase {
    /** The top-level symbols, in the order they were added. */
    var symbols: seq<Symbol>
    /** Whether a `;` follows every symbol that is not block-like. */
    const addSemis: bool
    /** The scope chain; the last frame is the current scope. */
    const scopes: ScopeChain

    ghost predicate Valid()
      reads this, scopes
    {
      scopes.Valid()
    }

    /** A root builder over a fresh root scope that knows only `object`. */
    constructor (addSemis: bool)
      ensures Valid() && fresh(scopes)
      ensures symbols == [] && this.addSemis == addSemis && scopes.frames == [{RESERVED}]
    {
      symbols := [];
      this.addSemis := addSemis;
      scopes := new ScopeChain();
    }

    /** `addSymbol`. */
    method AddSymbol(s: Symbol)
      modifies this
      ensures symbols == old(symbols) + [s]
    {
      symbols := symbols + [s];
    }

    /** `appendLine()`: an empty line. */
    method AppendLine()
      modifies this
      ensures symbols == old(symbols) + [Empty]
    {
      AddSymbol(Empty);
    }

    /** `block(symbol, post) { ... }`: the finished block joins the symbols. */
    method AddBlock(block: BlockBuilder)
      modifies this
      ensures symbols == old(symbols) + [Block(block.head, block.body, block.post)]
    {
      AddSymbol(block.AsSymbol());
    }

    /** `pushScope()`: a new innermost scope, a child of `scopes.last()`,
        which fails on an empty list. */
    method PushScope() returns (r: Result<()>)
      requires Valid()
      modifies scopes
      ensures Valid()
      ensures |old(scopes.frames)| > 0 ==> r.Ok? && scopes.frames == old(scopes.frames) + [{RESERVED}]
      ensures |old(scopes.frames)| == 0 ==> r == Fail(NoSuchElement) && scopes.frames == old(scopes.frames)
    {
      r := scopes.PushScope();
    }

    /** `popScope()`: `removeLast()` fails on an empty list. */
    method PopScope() returns (r: Result<()>)
      requires Valid()
      modifies scopes
      ensures Valid()
      ensures |old(scopes.frames)| > 0 ==> r.Ok? && scopes.frames == old(scopes.frames)[..|old(scopes.frames)| - 1]
      ensures |old(scopes.frames)| == 0 ==> r == Fail(NoSuchElement) && scopes.frames == old(scopes.frames)
    {
      r := scopes.PopScope();
    }

    /** `define(desiredName, ...)`: the local's name is allocated in the
        current scope, unique among every name in sight. */
    method Define(desired: string) returns (r: Result<string>)
      requires Valid()
      modifies scopes
      ensures Valid()
      ensures |old(scopes.frames)| == 0 ==> r == Fail(NoSuchElement) && scopes.frames == old(scopes.frames)
      ensures |old(scopes.frames)| > 0 ==>
        r == Ok(Allocated(AllNames(old(scopes.frames)), desired))
        && scopes.frames == old(scopes.frames)[..|old(scopes.frames)| - 1]
           + [old(scopes.frames)[|old(scopes.frames)| - 1] + {r.value}]
    {
      r := scopes.AllocateName(desired);
    }

    /** `toString()`: every symbol on a line of its own in a fresh text
        builder. */
    method ToText() returns (r: string)
      ensures r == RenderLines("", 0, symbols, addSemis)
    {
      var b := new CodeStringBuilder();
      BuildLines(symbols, b, addSemis);
      r := b.Build();
    }
  }

  /** The body builder of a `BlockSymbol`. */
  class BlockBuilder {
    const head: Symbol
    const post: Option<Symbol>
    var body: seq<Symbol>

    constructor (head: Symbol, post: Option<Symbol>)
      ensures this.head == head && this.post == post && body == []
    {
      this.head := head;
      this.post := post;
      body := [];
    }

    /** `addSymbol`: symbols go into the block's body. */
    method AddSymbol(s: Symbol)
      modifies this
      ensures body == old(body) + [s]
    {
      body := body + [s];
    }

    /** `symbols`: the head, the body and the closing symbol when there is one. */
    function Children(): (r: seq<Symbol>)
      reads this
      ensures |r| == |body| + (if post.Some? then 2 else 1)
      ensures r[0] == head && r[1..1 + |body|] == body
      ensures post.Some? ==> r[|r| - 1] == post.value
    {
      [head] + body + (if post.Some? then [post.value] else [])
    }

    /** The block as a symbol of its parent; it is never followed by `;`. */
    function AsSymbol(): (r: Symbol)
      reads this
      ensures BlockSemi(r) && r == Block(head, body, post)
    {
      Block(head, body, post)
    }
  }

  /** With no blocks among them, the root builder's symbols are written
      with no indentation: each symbol's text, its `;` when due, and a
      newline. */
  lemma ToTextFlat(symbols: seq<Symbol>, addSemis: bool)
    requires forall i :: 0 <= i < |symbols| ==> NoBlocks(symbols[i])
    ensures RenderLines("", 0, symbols, addSemis) == FlatLines(symbols, addSemis)
  {
    RenderLinesAtTop("", symbols, addSemis);
    assert "" + FlatLines(symbols, addSemis) == FlatLines(symbols, addSemis);
  }

  /** With semicolons on, a statement line ends in `;` and an empty line
      is a bare newline. */
  lemma StatementLines(x: string)
    ensures FlatLines([Raw(x), Empty], true) == x + ";" + "\n" + "\n"
  {
    var lines := [Raw(x), Empty];
    assert lines[1..] == [Empty];
    assert FlatLines([Empty], true) == "\n";
  }
}
