/** Scanning template-qualified C++ names: finding the `>` that closes a
    `<`, cutting a name at its top-level `::` and an argument list at its
    top-level `,`. Ranges are inclusive index pairs, as Kotlin's IntRange. */
module TemplateScan {
  import opened Wrappers
  import Text

  datatype Range = Range(first: int, last: int)

  /** Nesting depth just before index `i`. The scanners never look at index 0,
      and a `>` with nothing open is passed over, so neither changes the depth. */
  function Depth(s: string, i: nat): nat
    requires i <= |s|
  {
    if i <= 1 then 0
    else
      var d := Depth(s, i - 1);
      if s[i - 1] == '<' then d + 1
      else if s[i - 1] == '>' && d > 0 then d - 1
      else d
  }

  // -----------------------------------------------------------------------
  // findEnd

  /** Scanning from `i` with `d` brackets open: the index of the `>` that
      closes the outermost one. */
  function CloseFrom(s: string, i: nat, d: nat): (r: Result<nat>)
    requires d >= 1
    decreases |s| - i
    ensures r.Ok? ==> i <= r.value < |s| && s[r.value] == '>'
    ensures r.Fail? ==> r.error == IllegalState
  {
    if i >= |s| then Fail(IllegalState)
    else if s[i] == '<' then CloseFrom(s, i + 1, d + 1)
    else if s[i] == '>' then (if d == 1 then Ok(i) else CloseFrom(s, i + 1, d - 1))
    else CloseFrom(s, i + 1, d)
  }

  /** The index of the `>` matching the `<` at `start`; IllegalState if the
      name ends first. */
  function MatchingClose(s: string, start: nat): (r: Result<nat>)
    ensures r.Ok? ==> start < r.value < |s| && s[r.value] == '>'
  {
    CloseFrom(s, start + 1, 1)
  }

  /** `findEnd`, with the bracket count kept in a counter. */
  method FindEnd(s: string, start: nat) returns (r: Result<nat>)
    ensures r == MatchingClose(s, start)
  {
    var i := start + 1;
    var d := 1;
    while i < |s|
      invariant start + 1 <= i
      invariant d >= 1
      invariant CloseFrom(s, i, d) == MatchingClose(s, start)
      decreases |s| - i
    {
      if s[i] == '<' {
        d := d + 1;
      } else if s[i] == '>' {
        if d == 1 {
          return Ok(i);
        }
        d := d - 1;
      }
      i := i + 1;
    }
    return Fail(IllegalState);
  }

  /** The scan from inside an open bracket stays at positive depth until the
      matching `>`, and is back at depth zero right after it. */
  lemma {:induction false} CloseFromDepth(s: string, i: nat, d: nat)
    requires 2 <= i <= |s| && d >= 1 && Depth(s, i) == d
    ensures CloseFrom(s, i, d).Ok? ==>
      var e := CloseFrom(s, i, d).value;
      Depth(s, e + 1) == 0 && forall k :: i <= k <= e ==> Depth(s, k) >= 1
    ensures CloseFrom(s, i, d).Fail? ==> forall k :: i <= k <= |s| ==> Depth(s, k) >= 1
    decreases |s| - i
  {
    if i < |s| {
      if s[i] == '<' {
        CloseFromDepth(s, i + 1, d + 1);
      } else if s[i] == '>' {
        if d > 1 {
          CloseFromDepth(s, i + 1, d - 1);
        }
      } else {
        CloseFromDepth(s, i + 1, d);
      }
    }
  }

  /** A top-level `<` is closed at the first point where the depth returns
      to zero; if it never does, the scan fails. */
  lemma MatchingCloseDepth(s: string, start: nat)
    requires 1 <= start < |s| && s[start] == '<' && Depth(s, start) == 0
    ensures MatchingClose(s, start).Ok? ==>
      var e := MatchingClose(s, start).value;
      Depth(s, e + 1) == 0 && forall k :: start < k <= e ==> Depth(s, k) >= 1
    ensures MatchingClose(s, start).Fail? ==> forall k :: start < k <= |s| ==> Depth(s, k) >= 1
  {
    CloseFromDepth(s, start + 1, 1);
  }

  // -----------------------------------------------------------------------
  // findEnd as the source writes it

  /** `findEnd` as written: after a nested `<` it keeps looking for further
      `<` from the nested close onwards, even past the `>` that closes
      `start`, and only then looks for a `>`. */
  function FindEndAsWritten(s: string, start: nat): (r: Result<nat>)
    requires start < |s|
    decreases |s| - start, 1
    ensures r.Ok? ==> start < r.value < |s|
    ensures r.Fail? ==> r == Fail(IllegalState)
  {
    FindEndLoop(s, start, Text.IndexOf(s, '<', start + 1))
  }

  function FindEndLoop(s: string, startSearch: nat, openIndex: int): (r: Result<nat>)
    requires startSearch < |s|
    requires openIndex == -1 || startSearch < openIndex < |s|
    decreases |s| - startSearch, 0
    ensures r.Ok? ==> startSearch < r.value < |s|
    ensures r.Fail? ==> r == Fail(IllegalState)
  {
    if openIndex < 0 then
      var end := Text.IndexOf(s, '>', startSearch + 1);
      if end < 0 then Fail(IllegalState) else Ok(end)
    else
      var nested := FindEndAsWritten(s, openIndex);
      if nested.Fail? then nested
      else FindEndLoop(s, nested.value, Text.IndexOf(s, '<', nested.value + 1))
  }

  /** Two sibling template arguments: the as-written search fails on the
      first `<`, although its `>` is at index 3. */
  lemma FindEndSiblingCounterexample()
    ensures FindEndAsWritten("a<b>,c<d>", 1) == Fail(IllegalState)
    ensures MatchingClose("a<b>,c<d>", 1) == Ok(3)
  {
    var s := "a<b>,c<d>";
    assert Text.IndexOf(s, '<', 2) == 6;
    assert Text.IndexOf(s, '<', 7) == -1;
    assert Text.IndexOf(s, '>', 7) == 8;
    assert FindEndAsWritten(s, 6) == Ok(8);
    assert Text.IndexOf(s, '<', 9) == -1;
    assert Text.IndexOf(s, '>', 9) == -1;
  }

  // -----------------------------------------------------------------------
  // findTemplates

  /** The loop of `findTemplates` from state (`last`, `current`). */
  function TemplatesFrom(s: string, last: nat, current: nat): Result<seq<Range>>
    decreases |s| - current
  {
    if current >= |s| then Ok([Range(last, current - 1)])
    else if s[current] == '<' then
      var e := MatchingClose(s, current);
      if e.Fail? then Fail(e.error) else TemplatesFrom(s, last, e.value + 1)
    else if s[current] == ',' then
      var rest := TemplatesFrom(s, current, current + 1);
      if rest.Fail? then rest else Ok([Range(last, current - 1)] + rest.value)
    else TemplatesFrom(s, last, current + 1)
  }

  function Templates(s: string): Result<seq<Range>> {
    TemplatesFrom(s, 0, 1)
  }

  /** `findTemplates`: the ranges between top-level commas, each but the
      first starting at its comma. */
  method FindTemplates(s: string) returns (r: Result<seq<Range>>)
    ensures r == Templates(s)
  {
    var acc: seq<Range> := [];
    var last := 0;
    var current := 1;
    while current < |s|
      invariant 1 <= current
      invariant last < current
      invariant TemplatesFrom(s, 0, 1).Ok? <==> TemplatesFrom(s, last, current).Ok?
      invariant TemplatesFrom(s, last, current).Ok? ==>
        TemplatesFrom(s, 0, 1).value == acc + TemplatesFrom(s, last, current).value
      invariant TemplatesFrom(s, last, current).Fail? ==> TemplatesFrom(s, 0, 1) == TemplatesFrom(s, last, current)
      decreases |s| - current
    {
      if s[current] == '<' {
        var e := FindEnd(s, current);
        if e.Fail? {
          return Fail(e.error);
        }
        current := e.value;
      } else if s[current] == ',' {
        acc := acc + [Range(last, current - 1)];
        last := current;
      }
      current := current + 1;
    }
    r := Ok(acc + [Range(last, current - 1)]);
  }

  /** The loop of `findTemplates` as written, on the as-written `findEnd`. */
  function TemplatesFromAsWritten(s: string, last: nat, current: nat): (r: Result<seq<Range>>)
    decreases |s| - current
    ensures r.Ok? ==> |r.value| >= 1 && r.value[0].first == last
    ensures r.Fail? ==> r == Fail(IllegalState)
  {
    if current >= |s| then Ok([Range(last, current - 1)])
    else if s[current] == '<' then
      var e := FindEndAsWritten(s, current);
      if e.Fail? then Fail(e.error) else TemplatesFromAsWritten(s, last, e.value + 1)
    else if s[current] == ',' then
      var rest := TemplatesFromAsWritten(s, current, current + 1);
      if rest.Fail? then rest else Ok([Range(last, current - 1)] + rest.value)
    else TemplatesFromAsWritten(s, last, current + 1)
  }

  /** Wherever the as-written `findEnd` finds the matching `>`, the
      as-written `findTemplates` cuts the list exactly as the corrected one. */
  lemma {:induction false} TemplatesAsWrittenAgree(s: string, last: nat, current: nat)
    requires forall k {:trigger FindEndAsWritten(s, k)} :: current <= k < |s| && s[k] == '<' ==> FindEndAsWritten(s, k) == MatchingClose(s, k)
    ensures TemplatesFromAsWritten(s, last, current) == TemplatesFrom(s, last, current)
    decreases |s| - current
  {
    if current >= |s| {
    } else if s[current] == '<' {
      var e := MatchingClose(s, current);
      if e.Ok? {
        TemplatesAsWrittenAgree(s, last, e.value + 1);
      }
    } else if s[current] == ',' {
      TemplatesAsWrittenAgree(s, current, current + 1);
    } else {
      TemplatesAsWrittenAgree(s, last, current + 1);
    }
  }

  /** Two sibling template arguments: the as-written `findTemplates` fails
      where the corrected one cuts "a<b>" from ",c<d>". */
  lemma TemplatesSiblingCounterexample()
    ensures TemplatesFromAsWritten("a<b>,c<d>", 0, 1) == Fail(IllegalState)
    ensures Templates("a<b>,c<d>") == Ok([Range(0, 3), Range(4, 8)])
  {
    var s := "a<b>,c<d>";
    FindEndSiblingCounterexample();
    assert CloseFrom(s, 8, 1) == Ok(8);
    assert MatchingClose(s, 6) == Ok(8);
    assert TemplatesFrom(s, 4, 9) == Ok([Range(4, 8)]);
    assert TemplatesFrom(s, 4, 5) == Ok([Range(4, 8)]);
    assert [Range(0, 3)] + [Range(4, 8)] == [Range(0, 3), Range(4, 8)];
    assert TemplatesFrom(s, 0, 4) == Ok([Range(0, 3), Range(4, 8)]);
  }

  /** A comma at nesting depth zero: where an argument list is cut. */
  predicate TopComma(s: string, k: int) {
    1 <= k < |s| && s[k] == ',' && Depth(s, k) == 0
  }

  /** `rs` tiles `from .. |s|-1` with non-empty ranges cut exactly before
      each top-level comma. */
  predicate CommaSplit(s: string, rs: seq<Range>, from: int) {
    |rs| > 0 && rs[0].first == from && rs[|rs| - 1].last == |s| - 1
    && (forall j :: 0 <= j < |rs| ==> rs[j].first <= rs[j].last)
    && (forall j :: 0 < j < |rs| ==> rs[j].first == rs[j - 1].last + 1 && TopComma(s, rs[j].first))
    && (forall j, k :: 0 <= j < |rs| && rs[j].first < k <= rs[j].last ==> !TopComma(s, k))
  }

  lemma CommaSplitCons(s: string, last: nat, current: nat, rest: seq<Range>)
    requires last < current && TopComma(s, current)
    requires forall k :: last < k < current ==> !TopComma(s, k)
    requires CommaSplit(s, rest, current)
    ensures CommaSplit(s, [Range(last, current - 1)] + rest, last)
  {
    var rs := [Range(last, current - 1)] + rest;
    assert forall j :: 0 < j < |rs| ==> rs[j] == rest[j - 1];
    forall j, k | 0 <= j < |rs| && rs[j].first < k <= rs[j].last
      ensures !TopComma(s, k)
    {
      if j > 0 {
        assert rs[j] == rest[j - 1];
      }
    }
  }

  lemma {:induction false} TemplatesFromSplit(s: string, last: nat, current: nat)
    requires 1 <= current <= |s| && last < current
    requires Depth(s, current) == 0
    requires forall k :: last < k < current ==> !TopComma(s, k)
    ensures TemplatesFrom(s, last, current).Ok? <==> Depth(s, |s|) == 0
    ensures TemplatesFrom(s, last, current).Ok? ==> CommaSplit(s, TemplatesFrom(s, last, current).value, last)
    decreases |s| - current
  {
    if current == |s| {
      assert TemplatesFrom(s, last, current) == Ok([Range(last, current - 1)]);
    } else if s[current] == '<' {
      MatchingCloseDepth(s, current);
      var e := MatchingClose(s, current);
      if e.Ok? {
        assert forall k :: last < k < e.value + 1 ==> !TopComma(s, k);
        TemplatesFromSplit(s, last, e.value + 1);
      } else {
        assert Depth(s, |s|) >= 1;
      }
    } else if s[current] == ',' {
      assert Depth(s, current + 1) == 0;
      TemplatesFromSplit(s, current, current + 1);
      var rest := TemplatesFrom(s, current, current + 1);
      if rest.Ok? {
        CommaSplitCons(s, last, current, rest.value);
      }
    } else {
      assert Depth(s, current + 1) == 0;
      assert !TopComma(s, current);
      TemplatesFromSplit(s, last, current + 1);
    }
  }

  /** `findTemplates` succeeds exactly when every `<` is closed, and then
      cuts the list at its top-level commas and nowhere else. */
  lemma TemplatesSplitAtTopLevelCommas(s: string)
    requires |s| > 0
    ensures Templates(s).Ok? <==> Depth(s, |s|) == 0
    ensures Templates(s).Ok? ==> CommaSplit(s, Templates(s).value, 0)
  {
    TemplatesFromSplit(s, 0, 1);
  }

  // -----------------------------------------------------------------------
  // findQualifiers

  /** The loop of `findQualifiers` from state (`last`, `current`, `lastColon`). */
  function QualifiersFrom(s: string, last: int, current: nat, lastColon: bool): Result<seq<Range>>
    decreases |s| - current
  {
    if current >= |s| then Ok([Range(last + 1, current - 1)])
    else if s[current] == '<' then
      var e := MatchingClose(s, current);
      if e.Fail? then Fail(e.error) else QualifiersFrom(s, last, e.value + 1, false)
    else if s[current] == ':' && lastColon then
      var rest := QualifiersFrom(s, current, current + 1, true);
      if rest.Fail? then rest else Ok([Range(last + 1, current - 2)] + rest.value)
    else QualifiersFrom(s, last, current + 1, s[current] == ':')
  }

  /** The loop of `findQualifiers` as written, on the as-written `findEnd`. */
  function QualifiersFromAsWritten(s: string, last: int, current: nat, lastColon: bool): (r: Result<seq<Range>>)
    decreases |s| - current
    ensures r.Ok? ==> |r.value| >= 1 && r.value[0].first == last + 1
    ensures r.Fail? ==> r == Fail(IllegalState)
  {
    if current >= |s| then Ok([Range(last + 1, current - 1)])
    else if s[current] == '<' then
      var e := FindEndAsWritten(s, current);
      if e.Fail? then Fail(e.error) else QualifiersFromAsWritten(s, last, e.value + 1, false)
    else if s[current] == ':' && lastColon then
      var rest := QualifiersFromAsWritten(s, current, current + 1, true);
      if rest.Fail? then rest else Ok([Range(last + 1, current - 2)] + rest.value)
    else QualifiersFromAsWritten(s, last, current + 1, s[current] == ':')
  }

  /** Wherever the as-written `findEnd` finds the matching `>`, the
      as-written `findQualifiers` cuts the name exactly as the corrected one. */
  lemma {:induction false} QualifiersAsWrittenAgree(s: string, last: int, current: nat, lastColon: bool)
    requires forall k {:trigger FindEndAsWritten(s, k)} :: current <= k < |s| && s[k] == '<' ==> FindEndAsWritten(s, k) == MatchingClose(s, k)
    ensures QualifiersFromAsWritten(s, last, current, lastColon) == QualifiersFrom(s, last, current, lastColon)
    decreases |s| - current
  {
    if current >= |s| {
    } else if s[current] == '<' {
      var e := MatchingClose(s, current);
      assert FindEndAsWritten(s, current) == e;
      if e.Ok? {
        assert e.value + 1 > current;
        QualifiersAsWrittenAgree(s, last, e.value + 1, false);
      }
    } else if s[current] == ':' && lastColon {
      QualifiersAsWrittenAgree(s, current, current + 1, true);
    } else {
      QualifiersAsWrittenAgree(s, last, current + 1, s[current] == ':');
    }
  }

  /** "a<b>::c<d>": the as-written `findQualifiers` fails on the first `<`,
      whose `>` the corrected scanner finds at index 3. */
  lemma QualifiersSiblingCounterexample()
    ensures QualifiersFromAsWritten("a<b>::c<d>", -1, 1, false) == Fail(IllegalState)
    ensures MatchingClose("a<b>::c<d>", 1) == Ok(3)
  {
    var s := "a<b>::c<d>";
    assert Text.IndexOf(s, '<', 2) == 7;
    assert Text.IndexOf(s, '<', 8) == -1;
    assert Text.IndexOf(s, '>', 8) == 9;
    assert FindEndAsWritten(s, 7) == Ok(9);
    assert Text.IndexOf(s, '<', 10) == -1;
    assert Text.IndexOf(s, '>', 10) == -1;
    assert FindEndAsWritten(s, 1) == Fail(IllegalState);
  }

  function Qualifiers(s: string): Result<seq<Range>> {
    QualifiersFrom(s, -1, 1, false)
  }

  /** `findQualifiers`: the segments between top-level `::` separators. */
  method FindQualifiers(s: string) returns (r: Result<seq<Range>>)
    ensures r == Qualifiers(s)
  {
    var acc: seq<Range> := [];
    var last := -1;
    var current := 1;
    var lastColon := false;
    while current < |s|
      invariant 1 <= current
      invariant last < current
      invariant Qualifiers(s).Ok? <==> QualifiersFrom(s, last, current, lastColon).Ok?
      invariant QualifiersFrom(s, last, current, lastColon).Ok? ==>
        Qualifiers(s).value == acc + QualifiersFrom(s, last, current, lastColon).value
      invariant QualifiersFrom(s, last, current, lastColon).Fail? ==>
        Qualifiers(s) == QualifiersFrom(s, last, current, lastColon)
      decreases |s| - current
    {
      var c := s[current];
      if c == '<' {
        var e := FindEnd(s, current);
        if e.Fail? {
          return Fail(e.error);
        }
        current := e.value;
      } else if c == ':' && lastColon {
        acc := acc + [Range(last + 1, current - 2)];
        last := current;
      }
      lastColon := c == ':';
      current := current + 1;
    }
    r := Ok(acc + [Range(last + 1, current - 1)]);
  }

  /** The second colon of a `::` at nesting depth zero. */
  predicate TopSeparator(s: string, k: int) {
    2 <= k < |s| && s[k - 1] == ':' && s[k] == ':' && Depth(s, k) == 0
  }

  /** `rs` covers `from .. |s|-1`: consecutive segments are three apart
      (the two colons between them), each later segment starts right after a
      top-level separator, and no other top-level separator occurs. */
  predicate ColonSplit(s: string, rs: seq<Range>, from: int) {
    |rs| > 0 && rs[0].first == from && rs[|rs| - 1].last == |s| - 1
    && (forall j :: 0 < j < |rs| ==> rs[j].first == rs[j - 1].last + 3 && TopSeparator(s, rs[j].first - 1))
    && (forall j, k :: 0 <= j < |rs| && rs[j].first <= k <= rs[j].last + 1 ==> !TopSeparator(s, k))
  }

  lemma ColonSplitCons(s: string, last: int, current: nat, rest: seq<Range>)
    requires last < current && TopSeparator(s, current)
    requires forall k :: last < k < current ==> !TopSeparator(s, k)
    requires ColonSplit(s, rest, current + 1)
    ensures ColonSplit(s, [Range(last + 1, current - 2)] + rest, last + 1)
  {
    var rs := [Range(last + 1, current - 2)] + rest;
    assert rs[|rs| - 1] == rest[|rest| - 1];
    forall j | 0 < j < |rs|
      ensures rs[j].first == rs[j - 1].last + 3 && TopSeparator(s, rs[j].first - 1)
    {
      assert rs[j] == rest[j - 1];
      if j > 1 {
        assert rs[j - 1] == rest[j - 2];
      }
    }
    forall j, k | 0 <= j < |rs| && rs[j].first <= k <= rs[j].last + 1
      ensures !TopSeparator(s, k)
    {
      if j == 0 {
        assert last < k < current;
      } else {
        assert rs[j] == rest[j - 1];
        assert 0 <= j - 1 < |rest| && rest[j - 1].first <= k <= rest[j - 1].last + 1;
      }
    }
  }

  lemma {:induction false} QualifiersFromSplit(s: string, last: int, current: nat, lastColon: bool)
    requires 1 <= current <= |s| && -1 <= last < current
    requires Depth(s, current) == 0
    requires lastColon == (current >= 2 && s[current - 1] == ':')
    requires forall k :: last < k < current ==> !TopSeparator(s, k)
    ensures QualifiersFrom(s, last, current, lastColon).Ok? <==> Depth(s, |s|) == 0
    ensures QualifiersFrom(s, last, current, lastColon).Ok? ==>
      ColonSplit(s, QualifiersFrom(s, last, current, lastColon).value, last + 1)
    decreases |s| - current, 1
  {
    if current == |s| {
      assert QualifiersFrom(s, last, current, lastColon) == Ok([Range(last + 1, current - 1)]);
    } else if s[current] == '<' {
      QualifiersAngle(s, last, current, lastColon);
    } else if s[current] == ':' && lastColon {
      QualifiersColon(s, last, current, lastColon);
    } else {
      assert Depth(s, current + 1) == 0;
      assert !TopSeparator(s, current);
      QualifiersFromSplit(s, last, current + 1, s[current] == ':');
    }
  }

  /** A `<` skips to its matching `>`, or fails when there is none. */
  lemma {:induction false} QualifiersAngle(s: string, last: int, current: nat, lastColon: bool)
    requires 1 <= current <= |s| && -1 <= last < current
    requires Depth(s, current) == 0
    requires lastColon == (current >= 2 && s[current - 1] == ':')
    requires forall k :: last < k < current ==> !TopSeparator(s, k)
    requires current < |s| && s[current] == '<'
    ensures QualifiersFrom(s, last, current, lastColon).Ok? <==> Depth(s, |s|) == 0
    ensures QualifiersFrom(s, last, current, lastColon).Ok? ==>
      ColonSplit(s, QualifiersFrom(s, last, current, lastColon).value, last + 1)
    decreases |s| - current, 0
  {
    MatchingCloseDepth(s, current);
    var e := MatchingClose(s, current);
    if e.Ok? {
      assert forall k :: last < k < e.value + 1 ==> !TopSeparator(s, k);
      QualifiersFromSplit(s, last, e.value + 1, false);
    } else {
      assert Depth(s, |s|) >= 1;
    }
  }

  /** The second `:` of a top-level `::` ends a qualifier. */
  lemma {:induction false} QualifiersColon(s: string, last: int, current: nat, lastColon: bool)
    requires 1 <= current <= |s| && -1 <= last < current
    requires Depth(s, current) == 0
    requires lastColon == (current >= 2 && s[current - 1] == ':')
    requires forall k :: last < k < current ==> !TopSeparator(s, k)
    requires current < |s| && s[current] == ':' && lastColon
    ensures QualifiersFrom(s, last, current, lastColon).Ok? <==> Depth(s, |s|) == 0
    ensures QualifiersFrom(s, last, current, lastColon).Ok? ==>
      ColonSplit(s, QualifiersFrom(s, last, current, lastColon).value, last + 1)
    decreases |s| - current, 0
  {
    assert TopSeparator(s, current);
    assert Depth(s, current + 1) == 0;
    QualifiersFromSplit(s, current, current + 1, true);
    var rest := QualifiersFrom(s, current, current + 1, true);
    if rest.Ok? {
      ColonSplitCons(s, last, current, rest.value);
    }
  }

  /** `findQualifiers` succeeds exactly when every `<` is closed, and then
      cuts the name at its top-level `::` and never inside `<...>`. */
  lemma QualifiersSplitAtTopLevelSeparators(s: string)
    requires |s| > 0
    ensures Qualifiers(s).Ok? <==> Depth(s, |s|) == 0
    ensures Qualifiers(s).Ok? ==> ColonSplit(s, Qualifiers(s).value, 0)
  {
    QualifiersFromSplit(s, -1, 1, false);
  }

  const QUALIFIED_EXAMPLE: string := "std::vector<std::string>::iterator"

  lemma ExampleClose()
    ensures MatchingClose(QUALIFIED_EXAMPLE, 11) == Ok(23)
  {
    var s := QUALIFIED_EXAMPLE;
    assert CloseFrom(s, 23, 1) == Ok(23);
    assert CloseFrom(s, 22, 1) == Ok(23);
    assert CloseFrom(s, 21, 1) == Ok(23);
    assert CloseFrom(s, 20, 1) == Ok(23);
    assert CloseFrom(s, 19, 1) == Ok(23);
    assert CloseFrom(s, 18, 1) == Ok(23);
    assert CloseFrom(s, 17, 1) == Ok(23);
    assert CloseFrom(s, 16, 1) == Ok(23);
    assert CloseFrom(s, 15, 1) == Ok(23);
    assert CloseFrom(s, 14, 1) == Ok(23);
    assert CloseFrom(s, 13, 1) == Ok(23);
    assert CloseFrom(s, 12, 1) == Ok(23);
  }

  lemma ExampleTail()
    ensures QualifiersFrom(QUALIFIED_EXAMPLE, 4, 24, false) == Ok([Range(5, 23), Range(26, 33)])
  {
    var s := QUALIFIED_EXAMPLE;
    assert QualifiersFrom(s, 25, 33, false) == Ok([Range(26, 33)]);
    assert QualifiersFrom(s, 25, 32, false) == Ok([Range(26, 33)]);
    assert QualifiersFrom(s, 25, 31, false) == Ok([Range(26, 33)]);
    assert QualifiersFrom(s, 25, 30, false) == Ok([Range(26, 33)]);
    assert QualifiersFrom(s, 25, 29, false) == Ok([Range(26, 33)]);
    assert QualifiersFrom(s, 25, 28, false) == Ok([Range(26, 33)]);
    assert QualifiersFrom(s, 25, 27, false) == Ok([Range(26, 33)]);
    assert QualifiersFrom(s, 25, 26, true) == Ok([Range(26, 33)]);
    assert [Range(5, 23)] + [Range(26, 33)] == [Range(5, 23), Range(26, 33)];
    assert QualifiersFrom(s, 4, 25, true) == Ok([Range(5, 23), Range(26, 33)]);
  }

  lemma ExampleOpen()
    ensures QualifiersFrom(QUALIFIED_EXAMPLE, 4, 11, false) == Ok([Range(5, 23), Range(26, 33)])
  {
    ExampleClose();
    ExampleTail();
  }

  lemma ExampleVector()
    ensures QualifiersFrom(QUALIFIED_EXAMPLE, 4, 9, false) == Ok([Range(5, 23), Range(26, 33)])
  {
    var s := QUALIFIED_EXAMPLE;
    ExampleOpen();
    assert QualifiersFrom(s, 4, 10, false) == Ok([Range(5, 23), Range(26, 33)]);
  }

  lemma ExampleMiddle()
    ensures QualifiersFrom(QUALIFIED_EXAMPLE, 4, 5, true) == Ok([Range(5, 23), Range(26, 33)])
  {
    var s := QUALIFIED_EXAMPLE;
    ExampleVector();
    assert QualifiersFrom(s, 4, 8, false) == Ok([Range(5, 23), Range(26, 33)]);
    assert QualifiersFrom(s, 4, 7, false) == Ok([Range(5, 23), Range(26, 33)]);
    assert QualifiersFrom(s, 4, 6, false) == Ok([Range(5, 23), Range(26, 33)]);
  }

  /** "std::vector<std::string>::iterator" has the segments "std",
      "vector<std::string>" and "iterator": the `::` inside `<...>` is skipped. */
  lemma QualifiersExample()
    ensures Qualifiers(QUALIFIED_EXAMPLE) == Ok([Range(0, 2), Range(5, 23), Range(26, 33)])
  {
    var s := QUALIFIED_EXAMPLE;
    ExampleMiddle();
    assert [Range(0, 2)] + [Range(5, 23), Range(26, 33)] == [Range(0, 2), Range(5, 23), Range(26, 33)];
    assert QualifiersFrom(s, -1, 4, true) == Ok([Range(0, 2), Range(5, 23), Range(26, 33)]);
    assert QualifiersFrom(s, -1, 3, false) == Ok([Range(0, 2), Range(5, 23), Range(26, 33)]);
    assert QualifiersFrom(s, -1, 2, false) == Ok([Range(0, 2), Range(5, 23), Range(26, 33)]);
    assert QualifiersFrom(s, -1, 1, false) == Ok([Range(0, 2), Range(5, 23), Range(26, 33)]);
  }
}
