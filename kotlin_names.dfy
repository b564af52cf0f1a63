/** How the Kotlin writer names wrapper methods (`fixNaming` and
    `kotlinMethodName` in `KotlinWriter.kt`). */
module KotlinNames {
  import opened Text
  import Operators
  import Naming

  /** The Kotlin names of the infix operator wrappers. */
  const INFIX_LIST: set<string> := {
    "assign", "plusEquals", "eq", "neq", "lt", "gt", "lteq", "gteq",
    "binAnd", "binOr", "and", "or", "xor", "shl", "shr"
  }

  /** `fixNaming`: a plain method whose name is one of the infix wrapper
      names gets `_method` appended. */
  function FixNaming(name: string): string {
    if name in INFIX_LIST then name + "_method" else name
  }

  lemma NoUnderscoreInfix()
    ensures forall n :: n in INFIX_LIST ==> '_' !in n
  {
  }

  /** Exactly the infix names are renamed, and the new name is never one. */
  lemma FixNamingSpec(name: string)
    ensures FixNaming(name) != name <==> name in INFIX_LIST
    ensures name in INFIX_LIST ==> FixNaming(name) == name + "_method"
    ensures FixNaming(name) !in INFIX_LIST
  {
    if name in INFIX_LIST {
      assert (name + "_method")[|name|] == '_';
      NoUnderscoreInfix();
    }
  }

  /** Every infix wrapper of the operator table is named in the list... */
  lemma InfixOperatorsListed()
    ensures forall i :: 0 <= i < |Operators.ALL_OPERATORS| && Operators.ALL_OPERATORS[i].kotlinType.InfixMethod? ==>
      Operators.ALL_OPERATORS[i].kotlinType.name in INFIX_LIST
  {
  }

  /** ...and every name of the list is one of them, so a plain method that
      `fixNaming` leaves alone never takes an infix wrapper's name. */
  lemma ListedInfixOperators(n: string)
    requires n in INFIX_LIST
    ensures exists i :: 0 <= i < |Operators.ALL_OPERATORS| && Operators.ALL_OPERATORS[i].kotlinType == Operators.InfixMethod(n)
  {
    if n in {"eq", "neq", "lt", "gt", "lteq", "gteq"} {
      ComparisonsListed(n);
    } else if n in {"binAnd", "binOr", "and", "or", "xor", "shl", "shr"} {
      BitwiseListed(n);
    } else {
      AssignmentsListed(n);
    }
  }

  lemma ComparisonsListed(n: string)
    requires n in {"eq", "neq", "lt", "gt", "lteq", "gteq"}
    ensures exists i :: 0 <= i < |Operators.ALL_OPERATORS| && Operators.ALL_OPERATORS[i].kotlinType == Operators.InfixMethod(n)
  {
    var ops := Operators.ALL_OPERATORS;
    var i := if n == "eq" then 5 else if n == "neq" then 6 else if n == "lt" then 7
      else if n == "gt" then 8 else if n == "lteq" then 9 else 10;
    assert ops[i].kotlinType == Operators.InfixMethod(n);
  }

  lemma BitwiseListed(n: string)
    requires n in {"binAnd", "binOr", "and", "or", "xor", "shl", "shr"}
    ensures exists i :: 0 <= i < |Operators.ALL_OPERATORS| && Operators.ALL_OPERATORS[i].kotlinType == Operators.InfixMethod(n)
  {
    var ops := Operators.ALL_OPERATORS;
    var i := if n == "binAnd" then 11 else if n == "binOr" then 12 else if n == "and" then 13
      else if n == "or" then 14 else if n == "xor" then 15 else if n == "shl" then 16 else 17;
    assert ops[i].kotlinType == Operators.InfixMethod(n);
  }

  lemma AssignmentsListed(n: string)
    requires n in {"assign", "plusEquals"}
    ensures exists i :: 0 <= i < |Operators.ALL_OPERATORS| && Operators.ALL_OPERATORS[i].kotlinType == Operators.InfixMethod(n)
  {
    var ops := Operators.ALL_OPERATORS;
    var i := if n == "assign" then 29 else 30;
    assert ops[i].kotlinType == Operators.InfixMethod(n);
  }

  /** The renamings of `kotlinMethodName`, in the order they are applied:
      `""` before `"`, and `==` before `=`. */
  const RENAMES: seq<(string, string)> := [
    ("<", "_lt"), (">", "_gt"), ("\"\"", "_qts"), ("\"", "_qt"),
    ("==", "_cmd"), ("=", "_eq"), ("+", "_plus"), ("-", "_minus"),
    ("/", "_div"), ("*", "_star"), ("%", "_mod"), ("!", "_not")
  ]

  predicate Patterns(rules: seq<(string, string)>) {
    forall j :: 0 <= j < |rules| ==> |rules[j].0| > 0
  }

  /** A chain of `replace` calls, one per rule. */
  function Respell(s: string, rules: seq<(string, string)>): string
    requires Patterns(rules)
    decreases |rules|
  {
    if |rules| == 0 then s
    else Respell(Replace(s, rules[0].0, rules[0].1), rules[1..])
  }

  /** `kotlinMethodName`: the C++ symbols a name may hold are spelled out. */
  function KotlinMethodName(s: string): string {
    Respell(s, RENAMES)
  }

  /** The characters `kotlinMethodName` spells out. */
  const SYMBOL_CHARS: set<char> := {'<', '>', '"', '=', '+', '-', '/', '*', '%', '!'}

  /** No symbol character occurs in `s`. */
  predicate NoSymbols(s: string) {
    forall c :: c in SYMBOL_CHARS ==> c !in s
  }

  /** A character absent from the name and from every replacement stays out. */
  lemma {:induction false} RespellKeepsOut(s: string, rules: seq<(string, string)>, c: char)
    requires Patterns(rules) && c !in s
    requires forall j :: 0 <= j < |rules| ==> c !in rules[j].1
    ensures c !in Respell(s, rules)
    decreases |rules|
  {
    if |rules| > 0 {
      Naming.ReplaceKeepsOut(s, rules[0].0, rules[0].1, c);
      RespellKeepsOut(Replace(s, rules[0].0, rules[0].1), rules[1..], c);
    }
  }

  /** A character that one rule replaces, and that no later replacement
      brings back, is gone from the result. */
  lemma {:induction false} RespellDrops(s: string, rules: seq<(string, string)>, i: nat, c: char)
    requires Patterns(rules) && i < |rules| && rules[i].0 == [c]
    requires forall j :: i <= j < |rules| ==> c !in rules[j].1
    ensures c !in Respell(s, rules)
    decreases |rules|
  {
    if i == 0 {
      Naming.ReplaceDrops(s, c, rules[0].1);
      RespellKeepsOut(Replace(s, [c], rules[0].1), rules[1..], c);
    } else {
      RespellDrops(Replace(s, rules[0].0, rules[0].1), rules[1..], i - 1, c);
    }
  }

  /** A name holding no rule's first character is kept as it is. */
  lemma {:induction false} RespellPlain(s: string, rules: seq<(string, string)>)
    requires Patterns(rules)
    requires forall j :: 0 <= j < |rules| ==> rules[j].0[0] !in s
    ensures Respell(s, rules) == s
    decreases |rules|
  {
    if |rules| > 0 {
      assert Replace(s, rules[0].0, rules[0].1) == s by {
        assert forall k :: 0 <= k < |s| ==> s[k] != rules[0].0[0];
      }
      RespellPlain(s, rules[1..]);
    }
  }

  /** What the proofs need of the rule table: every pattern starts with a
      symbol character, no replacement holds one, each single-character
      symbol has a rule of its own, and `==` comes just before `=`. */
  predicate Spelling(rules: seq<(string, string)>) {
    && Patterns(rules) && |rules| == 12
    && (forall j, c :: 0 <= j < 12 && c in SYMBOL_CHARS ==> c !in rules[j].1)
    && (forall j :: 0 <= j < 12 ==> rules[j].0[0] in SYMBOL_CHARS)
    && (forall j :: 0 <= j < 4 ==> rules[j].0[0] != '=')
    && rules[0].0 == "<" && rules[1].0 == ">" && rules[3].0 == "\""
    && rules[4] == ("==", "_cmd") && rules[5] == ("=", "_eq")
    && rules[6].0 == "+" && rules[7].0 == "-" && rules[8].0 == "/"
    && rules[9].0 == "*" && rules[10].0 == "%" && rules[11].0 == "!"
  }

  lemma RenamesSpelling()
    ensures Spelling(RENAMES)
  {
    RenamesPlain();
    RenamesFirst();
  }

  /** The replacements hold only lower-case letters and `_`. */
  lemma RenamesPlain()
    ensures |RENAMES| == 12
    ensures forall j, c :: 0 <= j < 12 && c in SYMBOL_CHARS ==> c !in RENAMES[j].1
  {
  }

  lemma RenamesFirst()
    ensures Patterns(RENAMES) && |RENAMES| == 12
    ensures forall j :: 0 <= j < 12 ==> RENAMES[j].0[0] in SYMBOL_CHARS
    ensures forall j :: 0 <= j < 4 ==> RENAMES[j].0[0] != '='
  {
  }

  /** The rule that removes the symbol `c` last. */
  function SymbolRule(c: char): nat {
    if c == '<' then 0 else if c == '>' then 1 else if c == '"' then 3
    else if c == '=' then 5 else if c == '+' then 6 else if c == '-' then 7
    else if c == '/' then 8 else if c == '*' then 9 else if c == '%' then 10 else 11
  }

  lemma SpellingRemovesSymbols(s: string, rules: seq<(string, string)>)
    requires Spelling(rules)
    ensures NoSymbols(Respell(s, rules))
  {
    forall c | c in SYMBOL_CHARS
      ensures c !in Respell(s, rules)
    {
      RespellDrops(s, rules, SymbolRule(c), c);
    }
  }

  /** A Kotlin method name holds none of the symbol characters. */
  lemma KotlinMethodNameIsIdentifier(s: string)
    ensures NoSymbols(KotlinMethodName(s))
  {
    RenamesSpelling();
    SpellingRemovesSymbols(s, RENAMES);
  }

  /** A name without symbol characters is kept as it is. */
  lemma PlainKotlinMethodName(s: string)
    requires NoSymbols(s)
    ensures KotlinMethodName(s) == s
  {
    RenamesSpelling();
    RespellPlain(s, RENAMES);
  }

  /** Rules `k..` leave a name holding none of their first characters. */
  lemma RespellSuffixPlain(s: string, rules: seq<(string, string)>, k: nat)
    requires Patterns(rules) && k <= |rules|
    requires forall j :: k <= j < |rules| ==> rules[j].0[0] !in s
    ensures Respell(s, rules[k..]) == s
  {
    assert forall j :: 0 <= j < |rules| - k ==> rules[k..][j] == rules[k + j];
    RespellPlain(s, rules[k..]);
  }

  /** Applying rule `k` and then the rest. */
  lemma RespellUnfold(s: string, rules: seq<(string, string)>, k: nat)
    requires Patterns(rules) && k < |rules|
    ensures Respell(s, rules[k..]) == Respell(Replace(s, rules[k].0, rules[k].1), rules[k + 1..])
  {
    assert rules[k..][1..] == rules[k + 1..];
  }

  lemma SpellingDouble(a: string, b: string, rules: seq<(string, string)>)
    requires Spelling(rules) && NoSymbols(a) && NoSymbols(b)
    ensures Respell(a + ("==" + b), rules) == a + ("_cmd" + b)
  {
    var s := a + ("==" + b);
    var e := a + ("_cmd" + b);
    RespellPrefix(s, rules, 4);
    RespellUnfold(s, rules, 4);
    assert Replace(s, "==", "_cmd") == e by {
      Naming.ReplaceAround(a, "==", "_cmd", b);
      assert Replace(b, "==", "_cmd") == b by {
        assert forall k :: 0 <= k < |b| ==> b[k] != '=';
      }
    }
    assert NoSymbols(e);
    RespellSuffixPlain(e, rules, 5);
  }

  /** A lone `=` is no `==`. */
  lemma SingleNotDouble(a: string, b: string)
    requires NoSymbols(a) && NoSymbols(b)
    ensures Replace(a + ("=" + b), "==", "_cmd") == a + ("=" + b)
  {
    var x := "=" + b;
    Naming.ReplaceSkips(a, x, "==", "_cmd");
    if |x| >= 2 {
      assert x[..2] != "==" by { assert x[1] == b[0]; }
      assert x[1..] == b;
    }
    assert Replace(b, "==", "_cmd") == b by {
      assert forall k :: 0 <= k < |b| ==> b[k] != '=';
    }
  }

  lemma SpellingSingle(a: string, b: string, rules: seq<(string, string)>)
    requires Spelling(rules) && NoSymbols(a) && NoSymbols(b)
    ensures Respell(a + ("=" + b), rules) == a + ("_eq" + b)
  {
    var s := a + ("=" + b);
    var e := a + ("_eq" + b);
    RespellPrefix(s, rules, 4);
    RespellUnfold(s, rules, 4);
    SingleNotDouble(a, b);
    RespellUnfold(s, rules, 5);
    assert Replace(s, "=", "_eq") == e by {
      Naming.ReplaceAround(a, "=", "_eq", b);
      assert Replace(b, "=", "_eq") == b by {
        assert forall k :: 0 <= k < |b| ==> b[k] != '=';
      }
    }
    assert NoSymbols(e);
    RespellSuffixPlain(e, rules, 6);
  }

  /** `==` is spelled `_cmd`, not `_eq_eq`, and a lone `=` is spelled `_eq`. */
  lemma EqualsSpelling(a: string, b: string)
    requires NoSymbols(a) && NoSymbols(b)
    ensures KotlinMethodName(a + ("==" + b)) == a + ("_cmd" + b)
    ensures KotlinMethodName(a + ("=" + b)) == a + ("_eq" + b)
  {
    RenamesSpelling();
    SpellingDouble(a, b, RENAMES);
    SpellingSingle(a, b, RENAMES);
  }

  /** The first `k` rules leave a name holding none of their first characters. */
  lemma {:induction false} RespellPrefix(s: string, rules: seq<(string, string)>, k: nat)
    requires Patterns(rules) && k <= |rules|
    requires forall j :: 0 <= j < k ==> rules[j].0[0] !in s
    ensures Respell(s, rules) == Respell(s, rules[k..])
    decreases k
  {
    if k > 0 {
      assert Replace(s, rules[0].0, rules[0].1) == s by {
        assert forall i :: 0 <= i < |s| ==> s[i] != rules[0].0[0];
      }
      RespellPrefix(s, rules[1..], k - 1);
      assert rules[1..][k - 1..] == rules[k..];
    }
  }

  /** `s` is made of ASCII letters. */
  predicate Letters(s: string) {
    forall k :: 0 <= k < |s| ==> 'a' <= s[k] <= 'z' || 'A' <= s[k] <= 'Z'
  }

  lemma LettersPlain(s: string)
    requires Letters(s)
    ensures NoSymbols(s)
  {
    forall k | 0 <= k < |s|
      ensures s[k] !in SYMBOL_CHARS
    {
    }
  }

  lemma InfixLetters(n: string)
    requires n in INFIX_LIST
    ensures Letters(n)
  {
  }

  /** No infix wrapper name, and no `_method` suffix, holds a symbol. */
  lemma InfixNamesPlain(n: string)
    requires n in INFIX_LIST
    ensures NoSymbols(n + "_method")
  {
    InfixLetters(n);
    LettersPlain(n);
    LettersPlain("method");
    assert "_method" == "_" + "method";
    forall c | c in SYMBOL_CHARS
      ensures c !in n + "_method"
    {
    }
  }

  /** A plain method named like an infix wrapper keeps its name and gets
      `_method` appended. */
  lemma InfixMethodName(n: string)
    requires n in INFIX_LIST
    ensures KotlinMethodName(FixNaming(n)) == n + "_method"
  {
    InfixNamesPlain(n);
    PlainKotlinMethodName(n + "_method");
  }

  lemma PostIncrementPlain()
    ensures NoSymbols("postIncrement")
  {
    LettersPlain("postIncrement");
  }

  lemma PostIncrementName()
    ensures KotlinMethodName("postIncrement") == "postIncrement"
  {
    PostIncrementPlain();
    PlainKotlinMethodName("postIncrement");
  }
}
