/**
 A reader for the part of XML 1.0 that the document compiler emits: elements,
 double-quoted attributes and the five character references, with the end-of-line
 and attribute-value normalisation of sections 2.11 and 3.3.3.
 */
module Markup {
  import opened Outcomes

  type Attributes = seq<(string, string)>

  datatype Token =
    | Open(tag: string, attrs: Attributes)
    | Close(name: string)
    | Char(c: char)

  /** Section 2.2: the characters an XML document may contain at all. */
  predicate Legal(c: char) {
    c == '\t' || c == '\n' || c == '\r' || (' ' <= c && c != '\U{FFFE}' && c != '\U{FFFF}')
  }

  ghost predicate AllLegal(s: string) {
    forall i :: 0 <= i < |s| ==> Legal(s[i])
  }

  predicate NameChar(c: char) {
    'a' <= c <= 'z' || '0' <= c <= '9' || c == '-'
  }

  predicate IsName(s: string) {
    |s| > 0 && forall i :: 0 <= i < |s| ==> NameChar(s[i])
  }

  // ----------------------------------------------------------------- reading

  datatype Mode =
    | Text
    | Ref(name: string)
    | Opening
    | OpenName(tag: string)
    | CloseName(tag: string)
    | InTag(tag: string, attrs: Attributes)
    | Key(tag: string, attrs: Attributes, key: string)
    | Equals(tag: string, attrs: Attributes, key: string)
    | Value(tag: string, attrs: Attributes, key: string, value: string)
    | ValueRef(tag: string, attrs: Attributes, key: string, value: string, name: string)
    | AfterValue(tag: string, attrs: Attributes)
    | SelfClosing(tag: string, attrs: Attributes)
    | Bad

  function Decode(name: string): Option<char> {
    if name == "amp" then Some('&')
    else if name == "lt" then Some('<')
    else if name == "gt" then Some('>')
    else if name == "quot" then Some('"')
    else if name == "#x27" then Some('\'')
    else None
  }

  predicate RefChar(c: char) {
    NameChar(c) || c == '#'
  }

  /** White space in an attribute value reads as a space. */
  function Spaced(c: char): char {
    if c == '\t' || c == '\n' || c == '\r' then ' ' else c
  }

  predicate HasKey(attrs: Attributes, key: string) {
    exists i :: 0 <= i < |attrs| && attrs[i].0 == key
  }

  function TagMode(tag: string, attrs: Attributes, c: char): (Mode, seq<Token>) {
    if c == '>' then (Text, [Open(tag, attrs)])
    else if c == '/' then (SelfClosing(tag, attrs), [])
    else if c == ' ' then (InTag(tag, attrs), [])
    else (Bad, [])
  }

  function Step(m: Mode, c: char): (Mode, seq<Token>) {
    if !Legal(c) then (Bad, [])
    else match m
      case Text =>
        if c == '<' then (Opening, []) else if c == '&' then (Ref(""), []) else (Text, [Char(c)])
      case Ref(name) =>
        if RefChar(c) then (Ref(name + [c]), [])
        else if c == ';' && Decode(name).Some? then (Text, [Char(Decode(name).value)])
        else (Bad, [])
      case Opening =>
        if c == '/' then (CloseName(""), []) else if NameChar(c) then (OpenName([c]), []) else (Bad, [])
      case OpenName(tag) =>
        if NameChar(c) then (OpenName(tag + [c]), []) else TagMode(tag, [], c)
      case CloseName(tag) =>
        if NameChar(c) then (CloseName(tag + [c]), [])
        else if c == '>' && tag != "" then (Text, [Close(tag)])
        else (Bad, [])
      case InTag(tag, attrs) =>
        if NameChar(c) then (Key(tag, attrs, [c]), []) else TagMode(tag, attrs, c)
      case Key(tag, attrs, key) =>
        if NameChar(c) then (Key(tag, attrs, key + [c]), [])
        else if c == '=' && !HasKey(attrs, key) then (Equals(tag, attrs, key), [])
        else (Bad, [])
      case Equals(tag, attrs, key) =>
        if c == '"' then (Value(tag, attrs, key, ""), []) else (Bad, [])
      case Value(tag, attrs, key, value) =>
        if c == '"' then (AfterValue(tag, attrs + [(key, value)]), [])
        else if c == '&' then (ValueRef(tag, attrs, key, value, ""), [])
        else if c == '<' then (Bad, [])
        else (Value(tag, attrs, key, value + [Spaced(c)]), [])
      case ValueRef(tag, attrs, key, value, name) =>
        if RefChar(c) then (ValueRef(tag, attrs, key, value, name + [c]), [])
        else if c == ';' && Decode(name).Some? then (Value(tag, attrs, key, value + [Decode(name).value]), [])
        else (Bad, [])
      case AfterValue(tag, attrs) => TagMode(tag, attrs, c)
      case SelfClosing(tag, attrs) =>
        if c == '>' then (Text, [Open(tag, attrs), Close(tag)]) else (Bad, [])
      case Bad => (Bad, [])
  }

  function Run(m: Mode, s: string): (Mode, seq<Token>)
    decreases |s|
  {
    if s == "" then (m, [])
    else
      var first := Step(m, s[0]);
      var rest := Run(first.0, s[1..]);
      (rest.0, first.1 + rest.1)
  }

  /** Every line end, CR LF or a lone CR, is read as LF. */
  function Normalized(s: string): string {
    if s == "" then ""
    else if s[0] != '\r' then [s[0]] + Normalized(s[1..])
    else if |s| > 1 && s[1] == '\n' then Normalized(s[1..])
    else ['\n'] + Normalized(s[1..])
  }

  /** The text `s` between tags reads as exactly `tokens`. */
  ghost predicate Reads(s: string, tokens: seq<Token>) {
    Run(Text, Normalized(s)) == (Text, tokens)
  }

  lemma {:induction false} RunConcat(m: Mode, a: string, b: string)
    ensures var first := Run(m, a);
            Run(m, a + b) == (Run(first.0, b).0, first.1 + Run(first.0, b).1)
    decreases |a|
  {
    if a == "" {
      assert a + b == b && Run(m, a) == (m, []);
      assert [] + Run(m, b).1 == Run(m, b).1;
    } else {
      var ab := a + b;
      var first := Step(m, a[0]);
      assert ab[0] == a[0] && ab[1..] == a[1..] + b;
      RunConcat(first.0, a[1..], b);
      var inner := Run(first.0, a[1..]);
      var rest := Run(inner.0, b).1;
      assert first.1 + (inner.1 + rest) == (first.1 + inner.1) + rest;
    }
  }

  lemma {:induction false} OneRuns(m: Mode, c: char)
    ensures Run(m, [c]) == Step(m, c)
  {
    assert [c][1..] == "";
    assert Step(m, c).1 + [] == Step(m, c).1;
  }

  /** Reading `s` in mode `m` produces nothing yet and leads to mode `n`. */
  ghost predicate Moves(m: Mode, s: string, n: Mode) {
    Run(m, s) == (n, [])
  }

  lemma {:induction false} OneMoves(m: Mode, c: char)
    requires Step(m, c).1 == []
    ensures Moves(m, [c], Step(m, c).0)
  {
    OneRuns(m, c);
  }

  lemma {:induction false} MovesOn(m: Mode, a: string, n: Mode, b: string, k: Mode)
    requires Moves(m, a, n) && Moves(n, b, k)
    ensures Moves(m, a + b, k)
  {
    RunConcat(m, a, b);
  }

  lemma {:induction false} MovesThen(m: Mode, a: string, n: Mode, c: char)
    requires Moves(m, a, n)
    ensures Run(m, a + [c]) == Step(n, c)
  {
    RunConcat(m, a, [c]);
    OneRuns(n, c);
    assert [] + Step(n, c).1 == Step(n, c).1;
  }

  /** No line end is split between `a` and `b`. */
  predicate Joins(a: string, b: string) {
    a == "" || b == "" || a[|a| - 1] != '\r' || b[0] != '\n'
  }

  lemma {:induction false} NormalizedConcat(a: string, b: string)
    requires Joins(a, b)
    ensures Normalized(a + b) == Normalized(a) + Normalized(b)
  {
    if a == "" {
      assert a + b == b;
    } else {
      assert (a + b)[1..] == a[1..] + b;
      NormalizedConcat(a[1..], b);
    }
  }

  lemma {:induction false} ReadsConcat(a: string, b: string, s: seq<Token>, t: seq<Token>)
    requires Reads(a, s) && Reads(b, t) && Joins(a, b)
    ensures Reads(a + b, s + t)
  {
    NormalizedConcat(a, b);
    RunConcat(Text, Normalized(a), Normalized(b));
  }

  lemma {:induction false} NoLineEndStays(s: string)
    requires '\r' !in s
    ensures Normalized(s) == s
  {
    if s != "" {
      assert s[0] in s;
      assert forall c :: c in s[1..] ==> c in s;
      NoLineEndStays(s[1..]);
      assert [s[0]] + s[1..] == s;
    }
  }

  lemma {:induction false} NormalizedIsClean(s: string)
    ensures '\r' !in Normalized(s)
    ensures AllLegal(Normalized(s)) <==> AllLegal(s)
  {
    if s != "" {
      var rest := s[1..];
      NormalizedIsClean(rest);
      LegalConcat(['\n'], Normalized(rest));
      LegalConcat([s[0]], Normalized(rest));
      assert s == [s[0]] + rest;
      LegalConcat([s[0]], rest);
    }
  }

  lemma {:induction false} LegalConcat(a: string, b: string)
    ensures AllLegal(a + b) <==> AllLegal(a) && AllLegal(b)
  {
    var ab := a + b;
    assert forall i :: 0 <= i < |a| ==> a[i] == ab[i];
    assert forall i :: 0 <= i < |b| ==> b[i] == ab[|a| + i];
  }

  /** A character outside XML stops the reader for good. */
  lemma {:induction false} IllegalIsFatal(m: Mode, s: string)
    ensures (m == Bad || !AllLegal(s)) ==> Run(m, s).0 == Bad
    decreases |s|
  {
    if s != "" {
      IllegalIsFatal(Step(m, s[0]).0, s[1..]);
      if !AllLegal(s) && Legal(s[0]) {
        var i :| 0 <= i < |s| && !Legal(s[i]);
        assert s[1..][i - 1] == s[i];
      }
    }
  }
}
