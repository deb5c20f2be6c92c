/** Marked-up fragments, how they are written down, and what a reader gets back from the text. */
module MarkupPrinter {
  import opened Outcomes
  import opened Markup

  /** The fragments a document is built from; `Lines` writes its line feeds as `br` elements. */
  datatype Fragment =
    | Nothing
    | Both(first: Fragment, second: Fragment)
    | Words(text: string)
    | Lines(text: string)
    | Element(tag: string, attrs: Attributes, body: Fragment)
    | Void(tag: string, attrs: Attributes)

  function EscapeChar(c: char): string {
    if c == '&' then "&amp;"
    else if c == '<' then "&lt;"
    else if c == '>' then "&gt;"
    else if c == '"' then "&quot;"
    else if c == '\'' then "&#x27;"
    else [c]
  }

  function Escape(s: string): string {
    if s == "" then "" else EscapeChar(s[0]) + Escape(s[1..])
  }

  function ReplaceLineFeeds(s: string): string {
    if s == "" then "" else (if s[0] == '\n' then "<br/>" else [s[0]]) + ReplaceLineFeeds(s[1..])
  }

  function AttributesText(attrs: Attributes): string {
    if attrs == [] then ""
    else AttributesText(attrs[..|attrs| - 1]) + AttributeText(attrs[|attrs| - 1])
  }

  function AttributeText(attr: (string, string)): string {
    " " + attr.0 + "=\"" + Escape(attr.1) + "\""
  }

  function Print(x: Fragment): string {
    match x
    case Nothing => ""
    case Both(a, b) => Print(a) + Print(b)
    case Words(text) => Escape(text)
    case Lines(text) => ReplaceLineFeeds(Escape(text))
    case Element(tag, attrs, body) => "<" + tag + AttributesText(attrs) + ">" + Print(body) + "</" + tag + ">"
    case Void(tag, attrs) => "<" + tag + AttributesText(attrs) + "/>"
  }

  // ---------------------------------------------------------------- meaning

  function Chars(s: string): seq<Token> {
    if s == "" then [] else [Char(s[0])] + Chars(s[1..])
  }

  function SpacedAll(s: string): string {
    if s == "" then "" else [Spaced(s[0])] + SpacedAll(s[1..])
  }

  /** The attributes as written (`seen` false) or as a reader sees them. */
  function AttributesAs(attrs: Attributes, seen: bool): (r: Attributes)
    ensures |r| == |attrs|
    ensures forall i :: 0 <= i < |attrs| ==>
              r[i] == (attrs[i].0, if seen then SpacedAll(Normalized(attrs[i].1)) else attrs[i].1)
  {
    if attrs == [] then []
    else
      var last := attrs[|attrs| - 1];
      AttributesAs(attrs[..|attrs| - 1], seen) + [(last.0, if seen then SpacedAll(Normalized(last.1)) else last.1)]
  }

  function LineTokens(s: string, seen: bool): seq<Token> {
    if s == "" then []
    else
      (if s[0] == '\n' then [Open("br", []), Close("br")]
       else [Char(if seen && s[0] == '\r' then '\n' else s[0])])
      + LineTokens(s[1..], seen)
  }

  /** What the fragment says, and with `seen` what of it survives XML's normalisation. */
  function Tokens(x: Fragment, seen: bool): seq<Token> {
    match x
    case Nothing => []
    case Both(a, b) => Tokens(a, seen) + Tokens(b, seen)
    case Words(text) => Chars(if seen then Normalized(text) else text)
    case Lines(text) => LineTokens(text, seen)
    case Element(tag, attrs, body) => [Open(tag, AttributesAs(attrs, seen))] + Tokens(body, seen) + [Close(tag)]
    case Void(tag, attrs) => [Open(tag, AttributesAs(attrs, seen)), Close(tag)]
  }

  ghost predicate GoodAttributes(attrs: Attributes) {
    && (forall i :: 0 <= i < |attrs| ==> IsName(attrs[i].0))
    && forall i, j :: 0 <= i < j < |attrs| ==> attrs[i].0 != attrs[j].0
  }

  ghost predicate LegalAttributes(attrs: Attributes) {
    forall i :: 0 <= i < |attrs| ==> AllLegal(attrs[i].1)
  }

  /** Tags and attribute names are names, and neighbours do not split a line end. */
  ghost predicate Proper(x: Fragment) {
    match x
    case Both(a, b) => Proper(a) && Proper(b) && Joins(Print(a), Print(b))
    case Element(tag, attrs, body) => IsName(tag) && GoodAttributes(attrs) && Proper(body)
    case Void(tag, attrs) => IsName(tag) && GoodAttributes(attrs)
    case _ => true
  }

  ghost predicate LegalFragment(x: Fragment) {
    match x
    case Nothing => true
    case Both(a, b) => LegalFragment(a) && LegalFragment(b)
    case Words(text) => AllLegal(text)
    case Lines(text) => AllLegal(text)
    case Element(_, attrs, body) => LegalAttributes(attrs) && LegalFragment(body)
    case Void(_, attrs) => LegalAttributes(attrs)
  }

  // -------------------------------------------------------------- the text

  /** The reference that stands for the character, if it needs one. */
  function Entity(c: char): string {
    if c == '&' then "amp" else if c == '<' then "lt" else if c == '>' then "gt"
    else if c == '"' then "quot" else if c == '\'' then "#x27" else ""
  }

  lemma EntityIsReference(c: char)
    requires Entity(c) != ""
    ensures Legal(c) && EscapeChar(c) == "&" + Entity(c) + ";" && Decode(Entity(c)) == Some(c)
    ensures forall i :: 0 <= i < |Entity(c)| ==> RefChar(Entity(c)[i])
  {
  }

  lemma {:induction false} RefNameMoves(done: string, name: string)
    requires forall i :: 0 <= i < |name| ==> RefChar(name[i])
    ensures Moves(Ref(done), name, Ref(done + name))
    decreases |name|
  {
    if name == "" {
      assert done + name == done;
    } else {
      OneMoves(Ref(done), name[0]);
      RefNameMoves(done + [name[0]], name[1..]);
      MovesOn(Ref(done), [name[0]], Ref(done + [name[0]]), name[1..], Ref(done + [name[0]] + name[1..]));
      assert [name[0]] + name[1..] == name && done + [name[0]] + name[1..] == done + name;
    }
  }

  lemma {:induction false} ValueRefNameMoves(
    tag: string, attrs: Attributes, key: string, value: string, done: string, name: string)
    requires forall i :: 0 <= i < |name| ==> RefChar(name[i])
    ensures Moves(ValueRef(tag, attrs, key, value, done), name, ValueRef(tag, attrs, key, value, done + name))
    decreases |name|
  {
    if name == "" {
      assert done + name == done;
    } else {
      var m := ValueRef(tag, attrs, key, value, done);
      var n := ValueRef(tag, attrs, key, value, done + [name[0]]);
      OneMoves(m, name[0]);
      ValueRefNameMoves(tag, attrs, key, value, done + [name[0]], name[1..]);
      MovesOn(m, [name[0]], n, name[1..], ValueRef(tag, attrs, key, value, done + [name[0]] + name[1..]));
      assert [name[0]] + name[1..] == name && done + [name[0]] + name[1..] == done + name;
    }
  }

  lemma {:induction false} EscapedCharRuns(c: char)
    requires Legal(c)
    ensures Run(Text, EscapeChar(c)) == (Text, [Char(c)])
  {
    var name := Entity(c);
    if name == "" {
      OneRuns(Text, c);
    } else {
      EntityIsReference(c);
      OneMoves(Text, '&');
      RefNameMoves("", name);
      assert "" + name == name;
      MovesOn(Text, "&", Ref(""), name, Ref(name));
      MovesThen(Text, "&" + name, Ref(name), ';');
    }
  }

  lemma {:induction false} ValueCharMoves(tag: string, attrs: Attributes, key: string, value: string, c: char)
    requires Legal(c)
    ensures Moves(Value(tag, attrs, key, value), EscapeChar(c), Value(tag, attrs, key, value + [Spaced(c)]))
  {
    var m, name := Value(tag, attrs, key, value), Entity(c);
    if name == "" {
      OneMoves(m, c);
    } else {
      EntityIsReference(c);
      OneMoves(m, '&');
      ValueRefNameMoves(tag, attrs, key, value, "", name);
      assert "" + name == name;
      var n := ValueRef(tag, attrs, key, value, name);
      MovesOn(m, "&", ValueRef(tag, attrs, key, value, ""), name, n);
      MovesThen(m, "&" + name, n, ';');
    }
  }

  lemma {:induction false} EscapedRuns(s: string)
    requires AllLegal(s)
    ensures Run(Text, Escape(s)) == (Text, Chars(s))
  {
    if s != "" {
      assert Legal(s[0]);
      EscapedCharRuns(s[0]);
      EscapedRuns(s[1..]);
      RunConcat(Text, EscapeChar(s[0]), Escape(s[1..]));
    }
  }

  /** A character's text never starts or ends with half a line end it did not have. */
  lemma {:induction false} EscapeStart(s: string)
    ensures |Escape(s)| >= |s|
    ensures s != "" ==> (Escape(s)[0] == '\n' <==> s[0] == '\n')
  {
    if s != "" {
      EscapeStart(s[1..]);
    }
  }

  lemma EscapeFirst(c: char, rest: string)
    ensures Escape([c] + rest) == EscapeChar(c) + Escape(rest)
  {
    assert ([c] + rest)[1..] == rest;
  }

  /** A line end escapes to itself, and still swallows a line feed that follows. */
  lemma {:induction false} ReturnNormalized(rest: string)
    requires Normalized(Escape(rest)) == Escape(Normalized(rest))
    ensures Normalized(['\r'] + Escape(rest)) == Escape(Normalized(['\r'] + rest))
  {
    var s, t := ['\r'] + rest, ['\r'] + Escape(rest);
    EscapeStart(rest);
    EscapeFirst('\n', Normalized(rest));
    assert s[1..] == rest && t[1..] == Escape(rest);
    assert |rest| > 0 ==> s[1] == rest[0] && t[1] == Escape(rest)[0];
  }

  lemma {:induction false} OtherNormalized(c: char, rest: string)
    requires c != '\r' && Normalized(Escape(rest)) == Escape(Normalized(rest))
    ensures Normalized(EscapeChar(c) + Escape(rest)) == Escape([c] + Normalized(rest))
  {
    NoLineEndStays(EscapeChar(c));
    NormalizedConcat(EscapeChar(c), Escape(rest));
    EscapeFirst(c, Normalized(rest));
  }

  lemma {:induction false} EscapeNormalized(s: string)
    ensures Normalized(Escape(s)) == Escape(Normalized(s))
  {
    if s != "" {
      var c, rest := s[0], s[1..];
      EscapeNormalized(rest);
      if c == '\r' {
        assert s == ['\r'] + rest;
        ReturnNormalized(rest);
      } else {
        OtherNormalized(c, rest);
      }
    }
  }

  lemma {:induction false} WordsRead(s: string)
    requires AllLegal(s)
    ensures Reads(Escape(s), Chars(Normalized(s)))
  {
    NormalizedIsClean(s);
    EscapeNormalized(s);
    EscapedRuns(Normalized(s));
  }

  lemma {:induction false} ReplaceConcat(a: string, b: string)
    ensures ReplaceLineFeeds(a + b) == ReplaceLineFeeds(a) + ReplaceLineFeeds(b)
  {
    if a == "" {
      assert a + b == b;
    } else {
      assert (a + b)[1..] == a[1..] + b;
      ReplaceConcat(a[1..], b);
    }
  }

  lemma {:induction false} NothingToReplace(s: string)
    requires '\n' !in s
    ensures ReplaceLineFeeds(s) == s
  {
    if s != "" {
      assert s[0] in s;
      assert forall c :: c in s[1..] ==> c in s;
      NothingToReplace(s[1..]);
    }
  }

  lemma {:induction false} LineTextStart(s: string)
    ensures var text := ReplaceLineFeeds(Escape(s)); text == "" || text[0] != '\n'
  {
    if s != "" {
      EscapeStart(s);
    }
  }

  lemma {:induction false} LineBreakReads()
    ensures Reads("<br/>", [Open("br", []), Close("br")])
  {
    VoidTagReads("br", []);
    assert Head("br", []) + "/>" == "<br/>";
  }

  /** One character, from escaping to reading. */
  lemma {:induction false} OneChar(c: char)
    ensures Escape([c]) == EscapeChar(c)
    ensures Normalized([c]) == [if c == '\r' then '\n' else c]
    ensures ReplaceLineFeeds([c]) == if c == '\n' then "<br/>" else [c]
    ensures LineTokens([c], true)
         == if c == '\n' then [Open("br", []), Close("br")] else [Char(if c == '\r' then '\n' else c)]
  {
    assert [c][1..] == "";
  }

  lemma {:induction false} OtherCharReads(c: char)
    requires Legal(c) && c != '\n'
    ensures Reads(EscapeChar(c), [Char(if c == '\r' then '\n' else c)])
  {
    if c == '\r' {
      OneChar(c);
      EscapedCharRuns('\n');
    } else {
      NoLineEndStays(EscapeChar(c));
      EscapedCharRuns(c);
    }
  }

  lemma {:induction false} LineCharReads(c: char)
    requires Legal(c)
    ensures Reads(ReplaceLineFeeds(EscapeChar(c)), LineTokens([c], true))
  {
    OneChar(c);
    if c == '\n' {
      LineBreakReads();
    } else {
      NothingToReplace(EscapeChar(c));
      OtherCharReads(c);
    }
  }

  lemma {:induction false} LineTokensStep(s: string, seen: bool)
    requires s != ""
    ensures LineTokens(s, seen) == LineTokens([s[0]], seen) + LineTokens(s[1..], seen)
  {
    var head := [s[0]];
    assert head[1..] == "" && head[0] == s[0];
    assert LineTokens(head[1..], seen) == [];
  }

  lemma {:induction false} LinesRead(s: string)
    requires AllLegal(s)
    ensures Reads(ReplaceLineFeeds(Escape(s)), LineTokens(s, true))
  {
    if s != "" {
      var c, rest := s[0], s[1..];
      assert Legal(c);
      LineCharReads(c);
      LinesRead(rest);
      LineTextStart(rest);
      ReplaceConcat(EscapeChar(c), Escape(rest));
      LineTokensStep(s, true);
      ReadsConcat(ReplaceLineFeeds(EscapeChar(c)), ReplaceLineFeeds(Escape(rest)), LineTokens([c], true), LineTokens(rest, true));
    }
  }

  // -------------------------------------------------------------- the tags

  lemma {:induction false} NameMoves(done: string, name: string)
    requires forall i :: 0 <= i < |name| ==> NameChar(name[i])
    ensures Moves(OpenName(done), name, OpenName(done + name))
    ensures Moves(CloseName(done), name, CloseName(done + name))
    decreases |name|
  {
    if name == "" {
      assert done + name == done;
    } else {
      var next := done + [name[0]];
      OneMoves(OpenName(done), name[0]);
      OneMoves(CloseName(done), name[0]);
      NameMoves(next, name[1..]);
      MovesOn(OpenName(done), [name[0]], OpenName(next), name[1..], OpenName(next + name[1..]));
      MovesOn(CloseName(done), [name[0]], CloseName(next), name[1..], CloseName(next + name[1..]));
      assert [name[0]] + name[1..] == name && next + name[1..] == done + name;
    }
  }

  lemma {:induction false} KeyMoves(tag: string, attrs: Attributes, done: string, name: string)
    requires forall i :: 0 <= i < |name| ==> NameChar(name[i])
    ensures Moves(Key(tag, attrs, done), name, Key(tag, attrs, done + name))
    decreases |name|
  {
    if name == "" {
      assert done + name == done;
    } else {
      var next := done + [name[0]];
      OneMoves(Key(tag, attrs, done), name[0]);
      KeyMoves(tag, attrs, next, name[1..]);
      MovesOn(Key(tag, attrs, done), [name[0]], Key(tag, attrs, next), name[1..], Key(tag, attrs, next + name[1..]));
      assert [name[0]] + name[1..] == name && next + name[1..] == done + name;
    }
  }

  lemma {:induction false} ValueMoves(tag: string, attrs: Attributes, key: string, done: string, s: string)
    requires AllLegal(s)
    ensures Moves(Value(tag, attrs, key, done), Escape(s), Value(tag, attrs, key, done + SpacedAll(s)))
    decreases |s|
  {
    if s == "" {
      assert done + SpacedAll(s) == done;
    } else {
      var c, rest := s[0], s[1..];
      var m, next := Value(tag, attrs, key, done), done + [Spaced(c)];
      assert Legal(c);
      ValueCharMoves(tag, attrs, key, done, c);
      ValueMoves(tag, attrs, key, next, rest);
      MovesOn(m, EscapeChar(c), Value(tag, attrs, key, next), Escape(rest), Value(tag, attrs, key, next + SpacedAll(rest)));
      assert SpacedAll(s) == [Spaced(c)] + SpacedAll(rest);
      assert next + SpacedAll(rest) == done + ([Spaced(c)] + SpacedAll(rest));
    }
  }

  /** In the middle of a start tag, after its name or a value. */
  predicate InStartTag(m: Mode, tag: string, attrs: Attributes) {
    m == AfterValue(tag, attrs) || (m == OpenName(tag) && attrs == [])
  }

  lemma {:induction false} SpaceKeyMoves(m: Mode, tag: string, attrs: Attributes, key: string)
    requires InStartTag(m, tag, attrs) && IsName(key)
    ensures Moves(m, " " + key, Key(tag, attrs, key))
  {
    OneMoves(m, ' ');
    OneMoves(InTag(tag, attrs), key[0]);
    MovesOn(m, " ", InTag(tag, attrs), [key[0]], Key(tag, attrs, [key[0]]));
    KeyMoves(tag, attrs, [key[0]], key[1..]);
    assert [key[0]] + key[1..] == key;
    MovesOn(m, " " + [key[0]], Key(tag, attrs, [key[0]]), key[1..], Key(tag, attrs, key));
    assert " " + [key[0]] + key[1..] == " " + key;
  }

  lemma {:induction false} AttributeHeadMoves(m: Mode, tag: string, attrs: Attributes, key: string)
    requires InStartTag(m, tag, attrs) && IsName(key) && !HasKey(attrs, key)
    ensures Moves(m, " " + key + "=" + "\"", Value(tag, attrs, key, ""))
  {
    SpaceKeyMoves(m, tag, attrs, key);
    MovesThen(m, " " + key, Key(tag, attrs, key), '=');
    MovesThen(m, " " + key + "=", Equals(tag, attrs, key), '"');
  }

  lemma {:induction false} AttributeMoves(m: Mode, tag: string, attrs: Attributes, key: string, value: string)
    requires InStartTag(m, tag, attrs) && IsName(key) && !HasKey(attrs, key) && AllLegal(value)
    ensures Moves(m, Normalized(AttributeText((key, value))),
                  AfterValue(tag, attrs + [(key, SpacedAll(Normalized(value)))]))
  {
    var head := " " + key + "=" + "\"";
    var seen := Normalized(value);
    AttributeHeadMoves(m, tag, attrs, key);
    NormalizedIsClean(value);
    ValueMoves(tag, attrs, key, "", seen);
    assert "" + SpacedAll(seen) == SpacedAll(seen);
    MovesOn(m, head, Value(tag, attrs, key, ""), Escape(seen), Value(tag, attrs, key, SpacedAll(seen)));
    MovesThen(m, head + Escape(seen), Value(tag, attrs, key, SpacedAll(seen)), '"');
    AttributeTextNormalized(key, value);
  }

  lemma {:induction false} AttributeTextNormalized(key: string, value: string)
    requires IsName(key)
    ensures Normalized(AttributeText((key, value))) == " " + key + "=" + "\"" + Escape(Normalized(value)) + "\""
  {
    var head := " " + key + "=" + "\"";
    assert AttributeText((key, value)) == head + Escape(value) + "\"";
    EscapeNormalized(value);
    NoLineEndStays(head);
    NoLineEndStays("\"");
    NormalizedConcat(head, Escape(value));
    NormalizedConcat(head + Escape(value), "\"");
  }

  lemma {:induction false} NewKey(attrs: Attributes)
    requires GoodAttributes(attrs) && attrs != []
    ensures var before, last := attrs[..|attrs| - 1], attrs[|attrs| - 1];
            GoodAttributes(before) && IsName(last.0) && !HasKey(AttributesAs(before, true), last.0)
  {
    var before := attrs[..|attrs| - 1];
    var seen := AttributesAs(before, true);
    assert forall i :: 0 <= i < |before| ==> seen[i].0 == before[i].0 && before[i] == attrs[i];
  }

  lemma {:induction false} AttributesMove(tag: string, attrs: Attributes) returns (m: Mode)
    requires GoodAttributes(attrs) && LegalAttributes(attrs)
    ensures InStartTag(m, tag, AttributesAs(attrs, true))
    ensures Moves(OpenName(tag), Normalized(AttributesText(attrs)), m)
    ensures AttributesText(attrs) == "" || AttributesText(attrs)[|AttributesText(attrs)| - 1] == '"'
    decreases |attrs|
  {
    if attrs == [] {
      m := OpenName(tag);
    } else {
      var before, last := attrs[..|attrs| - 1], attrs[|attrs| - 1];
      NewKey(attrs);
      assert AllLegal(last.1);
      var middle := AttributesMove(tag, before);
      AttributeMoves(middle, tag, AttributesAs(before, true), last.0, last.1);
      NormalizedConcat(AttributesText(before), AttributeText(last));
      m := AfterValue(tag, AttributesAs(attrs, true));
      MovesOn(OpenName(tag), Normalized(AttributesText(before)), middle, Normalized(AttributeText((last.0, last.1))), m);
    }
  }

  function Head(tag: string, attrs: Attributes): string {
    "<" + tag + AttributesText(attrs)
  }

  lemma {:induction false} HeadMoves(tag: string, attrs: Attributes) returns (m: Mode)
    requires IsName(tag) && GoodAttributes(attrs) && LegalAttributes(attrs)
    ensures InStartTag(m, tag, AttributesAs(attrs, true))
    ensures Moves(Text, Normalized(Head(tag, attrs)), m)
    ensures Head(tag, attrs)[|Head(tag, attrs)| - 1] != '\r'
  {
    var start := "<" + tag;
    NoLineEndStays(start);
    OneMoves(Text, '<');
    OneMoves(Opening, tag[0]);
    MovesOn(Text, "<", Opening, [tag[0]], OpenName([tag[0]]));
    NameMoves([tag[0]], tag[1..]);
    assert [tag[0]] + tag[1..] == tag;
    MovesOn(Text, "<" + [tag[0]], OpenName([tag[0]]), tag[1..], OpenName(tag));
    assert "<" + [tag[0]] + tag[1..] == start;
    m := AttributesMove(tag, attrs);
    NormalizedConcat(start, AttributesText(attrs));
    MovesOn(Text, start, OpenName(tag), Normalized(AttributesText(attrs)), m);
  }

  lemma {:induction false} StartTagReads(tag: string, attrs: Attributes)
    requires IsName(tag) && GoodAttributes(attrs) && LegalAttributes(attrs)
    ensures Reads(Head(tag, attrs) + ">", [Open(tag, AttributesAs(attrs, true))])
  {
    var m := HeadMoves(tag, attrs);
    NoLineEndStays(">");
    NormalizedConcat(Head(tag, attrs), ">");
    MovesThen(Text, Normalized(Head(tag, attrs)), m, '>');
  }

  lemma {:induction false} VoidEndRuns(m: Mode, tag: string, attrs: Attributes)
    requires InStartTag(m, tag, attrs)
    ensures Run(m, "/>") == (Text, [Open(tag, attrs), Close(tag)])
  {
    var slash: string := ['/'];
    OneMoves(m, '/');
    MovesThen(m, slash, SelfClosing(tag, attrs), '>');
    assert slash + ['>'] == "/>";
  }

  lemma {:induction false} VoidTagReads(tag: string, attrs: Attributes)
    requires IsName(tag) && GoodAttributes(attrs) && LegalAttributes(attrs)
    ensures Reads(Head(tag, attrs) + "/>", [Open(tag, AttributesAs(attrs, true)), Close(tag)])
  {
    var m := HeadMoves(tag, attrs);
    NoLineEndStays("/>");
    NormalizedConcat(Head(tag, attrs), "/>");
    VoidEndRuns(m, tag, AttributesAs(attrs, true));
    RunConcat(Text, Normalized(Head(tag, attrs)), "/>");
    var tokens := [Open(tag, AttributesAs(attrs, true)), Close(tag)];
    assert [] + tokens == tokens;
  }

  lemma {:induction false} EndTagReads(tag: string)
    requires IsName(tag)
    ensures Reads("</" + tag + ">", [Close(tag)])
  {
    NoLineEndStays("</" + tag + ">");
    OneMoves(Text, '<');
    MovesThen(Text, "<", Opening, '/');
    assert "<" + "/" == "</";
    NameMoves("", tag);
    assert "" + tag == tag;
    MovesOn(Text, "</", CloseName(""), tag, CloseName(tag));
    MovesThen(Text, "</" + tag, CloseName(tag), '>');
  }

  lemma {:induction false} ElementReads(tag: string, attrs: Attributes, body: string, tokens: seq<Token>)
    requires IsName(tag) && GoodAttributes(attrs) && LegalAttributes(attrs) && Reads(body, tokens)
    ensures Reads(Head(tag, attrs) + ">" + body + "</" + tag + ">",
                  [Open(tag, AttributesAs(attrs, true))] + tokens + [Close(tag)])
  {
    var open, end := Head(tag, attrs) + ">", "</" + tag + ">";
    var start := [Open(tag, AttributesAs(attrs, true))];
    StartTagReads(tag, attrs);
    EndTagReads(tag);
    ReadsConcat(open, body, start, tokens);
    ReadsConcat(open + body, end, start + tokens, [Close(tag)]);
    assert open + body + end == Head(tag, attrs) + ">" + body + "</" + tag + ">";
  }

  // ------------------------------------------------------------ the theorems

  /** Whatever is legal in XML is read as the fragment says, up to XML's own normalisation. */
  lemma {:induction false} PrintReads(x: Fragment)
    requires Proper(x) && LegalFragment(x)
    ensures Reads(Print(x), Tokens(x, true))
  {
    match x
    case Nothing =>
    case Both(a, b) =>
      PrintReads(a);
      PrintReads(b);
      ReadsConcat(Print(a), Print(b), Tokens(a, true), Tokens(b, true));
    case Words(text) => WordsRead(text);
    case Lines(text) => LinesRead(text);
    case Element(tag, attrs, body) =>
      PrintReads(body);
      ElementReads(tag, attrs, Print(body), Tokens(body, true));
    case Void(tag, attrs) => VoidTagReads(tag, attrs);
  }
}
