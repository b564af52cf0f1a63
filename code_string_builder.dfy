/** The indenting text builder the code writers append to. Every line's
    first non-newline character is preceded by four spaces per open block. */
module CodeStrings {
  import opened Wrappers
  import opened Text

  /** The indentation written for `indent` open blocks (none when not positive). */
  function Spaces(indent: int): (r: string)
    decreases if indent < 0 then 0 else indent
    ensures |r| == if indent <= 0 then 0 else 4 * indent
    ensures forall i :: 0 <= i < |r| ==> r[i] == ' '
  {
    if indent <= 0 then "" else "    " + Spaces(indent - 1)
  }

  predicate AtLineStart(text: string) {
    |text| > 0 && text[|text| - 1] == '\n'
  }

  /** `checkNewLine()`: indentation is written only right after a newline. */
  function CheckNewLine(text: string, indent: int): string {
    if AtLineStart(text) then text + Spaces(indent) else text
  }

  /** `append(c)`. */
  function PutChar(text: string, indent: int, c: char): string {
    (if c != '\n' then CheckNewLine(text, indent) else text) + [c]
  }

  /** `appendInternal(s)` for a piece without newlines. */
  function PutPiece(text: string, indent: int, s: string): string {
    if s == "" then text else CheckNewLine(text, indent) + s
  }

  /** The pieces after the first: each is preceded by a newline. */
  function PutRest(text: string, indent: int, pieces: seq<string>): string
    decreases |pieces|
  {
    if |pieces| == 0 then text
    else PutRest(PutPiece(PutChar(text, indent, '\n'), indent, pieces[0]), indent, pieces[1..])
  }

  /** `append(str)`: the newline-separated pieces of `str`, a newline
      appended between consecutive pieces. */
  function PutString(text: string, indent: int, str: string): string {
    var pieces := Split(str, '\n');
    PutRest(PutPiece(text, indent, pieces[0]), indent, pieces[1..])
  }

  /** Reference definition: `str` appended one character at a time. */
  function PutChars(text: string, indent: int, str: string): string
    decreases |str|
  {
    if |str| == 0 then text else PutChars(PutChar(text, indent, str[0]), indent, str[1..])
  }

  class CodeStringBuilder {
    var indent: int
    var text: string

    constructor ()
      ensures indent == 0 && text == ""
    {
      indent := 0;
      text := "";
    }

    method StartBlock()
      modifies this
      ensures indent == old(indent) + 1 && text == old(text)
    {
      indent := indent + 1;
    }

    method EndBlock()
      modifies this
      ensures indent == old(indent) - 1 && text == old(text)
    {
      indent := indent - 1;
    }

    method AppendChar(c: char)
      modifies this
      ensures text == PutChar(old(text), indent, c) && indent == old(indent)
    {
      if c != '\n' {
        CheckNewLineStep();
      }
      text := text + [c];
    }

    method Append(str: string)
      modifies this
      ensures text == PutString(old(text), indent, str) && indent == old(indent)
    {
      var pieces := Split(str, '\n');
      ghost var goal := PutString(text, indent, str);
      ghost var start := text;
      var i := 0;
      while i < |pieces|
        invariant 0 <= i <= |pieces| && indent == old(indent)
        invariant i == 0 ==> text == start
        invariant i > 0 ==> PutRest(text, indent, pieces[i..]) == goal
      {
        if i != 0 {
          AppendChar('\n');
        }
        AppendPiece(pieces[i]);
        assert pieces[i..][1..] == pieces[i + 1..];
        i := i + 1;
      }
    }

    /** `removeLast()`: deletes the last character; fails on an empty text. */
    method RemoveLast() returns (r: Result<()>)
      modifies this
      ensures |old(text)| == 0 ==> r == Fail(IndexOutOfBounds) && text == old(text)
      ensures |old(text)| > 0 ==> r.Ok? && text == old(text)[..|old(text)| - 1]
      ensures indent == old(indent)
    {
      if |text| == 0 {
        return Fail(IndexOutOfBounds);
      }
      text := text[..|text| - 1];
      r := Ok(());
    }

    method AppendPiece(s: string)
      modifies this
      ensures text == PutPiece(old(text), indent, s) && indent == old(indent)
    {
      if s == "" {
        return;
      }
      CheckNewLineStep();
      text := text + s;
    }

    method CheckNewLineStep()
      modifies this
      ensures text == CheckNewLine(old(text), indent) && indent == old(indent)
    {
      if AtLineStart(text) {
        var i := 0;
        while i < indent
          invariant indent == old(indent)
          invariant 0 <= i && (indent > 0 ==> i <= indent) && (indent <= 0 ==> i == 0)
          invariant text == old(text) + Spaces(i)
        {
          SpacesSnoc(i);
          text := text + "    ";
          i := i + 1;
        }
        assert Spaces(i) == Spaces(indent);
      }
    }

    function Build(): string
      reads this
    {
      text
    }
  }

  lemma {:induction false} SpacesSnoc(i: nat)
    ensures Spaces(i) + "    " == Spaces(i + 1)
  {
    if i > 0 {
      SpacesSnoc(i - 1);
    }
  }

  // ---------------------------------------------------------------------
  // Properties

  /** A newline is never indented. */
  lemma NewlineNotIndented(text: string, indent: int)
    ensures PutChar(text, indent, '\n') == text + "\n"
  {
  }

  /** The first character of a line is preceded by four spaces per open
      block; any other character is appended as it is. */
  lemma IndentAtLineStart(text: string, indent: int, c: char)
    requires c != '\n'
    ensures AtLineStart(text) ==> PutChar(text, indent, c) == text + Spaces(indent) + [c]
    ensures !AtLineStart(text) ==> PutChar(text, indent, c) == text + [c]
  {
  }

  /** Appending characters one by one composes. */
  lemma {:induction false} PutCharsConcat(text: string, indent: int, a: string, b: string)
    ensures PutChars(PutChars(text, indent, a), indent, b) == PutChars(text, indent, a + b)
    decreases |a|
  {
    if |a| > 0 {
      PutCharsConcat(PutChar(text, indent, a[0]), indent, a[1..], b);
      assert (a + b)[0] == a[0] && (a + b)[1..] == a[1..] + b;
    } else {
      assert a + b == b;
    }
  }

  /** Mid-line, characters without newlines are appended verbatim. */
  lemma {:induction false} PutCharsMidLine(text: string, indent: int, s: string)
    requires !AtLineStart(text) && '\n' !in s
    ensures PutChars(text, indent, s) == text + s
    decreases |s|
  {
    if |s| > 0 {
      PutCharsMidLine(text + [s[0]], indent, s[1..]);
      assert text + [s[0]] + s[1..] == text + s;
    }
  }

  lemma PutPieceIsPutChars(text: string, indent: int, s: string)
    requires '\n' !in s
    ensures PutPiece(text, indent, s) == PutChars(text, indent, s)
  {
    if |s| > 0 {
      var t1 := CheckNewLine(text, indent) + [s[0]];
      PutCharsMidLine(t1, indent, s[1..]);
      assert t1 + s[1..] == CheckNewLine(text, indent) + s;
    }
  }

  /** The pieces after the first, each preceded by a newline, as one string. */
  function NewlinePrefixed(pieces: seq<string>): string {
    if |pieces| == 0 then "" else "\n" + pieces[0] + NewlinePrefixed(pieces[1..])
  }

  lemma {:induction false} JoinNewlines(pieces: seq<string>)
    requires |pieces| >= 1
    ensures Join(pieces, "\n") == pieces[0] + NewlinePrefixed(pieces[1..])
    decreases |pieces|
  {
    if |pieces| >= 2 {
      JoinNewlines(pieces[1..]);
      assert pieces[1..][1..] == pieces[2..];
    }
  }

  lemma {:induction false} PutRestIsPutChars(text: string, indent: int, pieces: seq<string>)
    requires forall i :: 0 <= i < |pieces| ==> '\n' !in pieces[i]
    ensures PutRest(text, indent, pieces) == PutChars(text, indent, NewlinePrefixed(pieces))
    decreases |pieces|
  {
    if |pieces| > 0 {
      var t1 := PutChar(text, indent, '\n');
      PutPieceIsPutChars(t1, indent, pieces[0]);
      PutRestIsPutChars(PutPiece(t1, indent, pieces[0]), indent, pieces[1..]);
      PutCharsConcat(t1, indent, pieces[0], NewlinePrefixed(pieces[1..]));
      assert NewlinePrefixed(pieces) == "\n" + (pieces[0] + NewlinePrefixed(pieces[1..]));
    }
  }

  /** `append(str)`, which works piece by piece, writes exactly what
      appending the characters of `str` one at a time writes. */
  lemma PutStringIsPutChars(text: string, indent: int, str: string)
    ensures PutString(text, indent, str) == PutChars(text, indent, str)
  {
    var pieces := Split(str, '\n');
    JoinNewlines(pieces);
    PutPieceIsPutChars(text, indent, pieces[0]);
    PutRestIsPutChars(PutPiece(text, indent, pieces[0]), indent, pieces[1..]);
    PutCharsConcat(text, indent, pieces[0], NewlinePrefixed(pieces[1..]));
  }

  /** Appending `a` then `b` is appending `a + b`: how a text is cut into
      `append` calls does not change the output. */
  lemma PutStringConcat(text: string, indent: int, a: string, b: string)
    ensures PutString(PutString(text, indent, a), indent, b) == PutString(text, indent, a + b)
  {
    PutStringIsPutChars(text, indent, a);
    PutStringIsPutChars(PutString(text, indent, a), indent, b);
    PutStringIsPutChars(text, indent, a + b);
    PutCharsConcat(text, indent, a, b);
  }

  /** The first line written to an empty builder is not indented, and with
      no open block nothing is ever indented. */
  lemma {:induction false} NoIndentAtTop(text: string, str: string)
    ensures PutChars(text, 0, str) == text + str
    decreases |str|
  {
    if |str| > 0 {
      assert PutChar(text, 0, str[0]) == text + [str[0]];
      NoIndentAtTop(text + [str[0]], str[1..]);
      assert text + [str[0]] + str[1..] == text + str;
    }
  }

  lemma FirstLineNotIndented(indent: int, str: string)
    requires '\n' !in str
    ensures PutString("", indent, str) == str
  {
    PutStringIsPutChars("", indent, str);
    if |str| > 0 {
      PutCharsMidLine([str[0]], indent, str[1..]);
      assert [str[0]] + str[1..] == str;
    }
  }
}
