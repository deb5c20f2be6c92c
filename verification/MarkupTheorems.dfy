/** What every printed fragment guarantees: what is read back from it, and that its structure is sound. */
module MarkupTheorems {
  import opened Outcomes
  import opened Markup
  import opened MarkupPrinter

  // ---------------------------------------------------------- legal characters

  lemma {:induction false} EscapeKeepsLegal(s: string)
    ensures AllLegal(Escape(s)) <==> AllLegal(s)
  {
    if s != "" {
      var c, rest := s[0], s[1..];
      EscapeKeepsLegal(rest);
      LegalConcat(EscapeChar(c), Escape(rest));
      assert s == [c] + rest;
      LegalConcat([c], rest);
      assert AllLegal(EscapeChar(c)) <==> AllLegal([c]) by {
        assert EscapeChar(c) != [c] ==> Legal(c) && AllLegal(EscapeChar(c));
      }
    }
  }

  lemma {:induction false} ReplaceKeepsLegal(s: string)
    ensures AllLegal(ReplaceLineFeeds(s)) <==> AllLegal(s)
  {
    if s != "" {
      var c, rest := s[0], s[1..];
      ReplaceKeepsLegal(rest);
      LegalConcat(if c == '\n' then "<br/>" else [c], ReplaceLineFeeds(rest));
      assert s == [c] + rest;
      LegalConcat([c], rest);
      assert AllLegal("<br/>") && (c == '\n' ==> AllLegal([c]));
    }
  }

  lemma {:induction false} AttributeLegal(key: string, value: string)
    requires IsName(key)
    ensures AllLegal(AttributeText((key, value))) <==> AllLegal(value)
  {
    EscapeKeepsLegal(value);
    LegalConcat(" ", key);
    LegalConcat(" " + key, "=\"");
    LegalConcat(" " + key + "=\"", Escape(value));
    LegalConcat(" " + key + "=\"" + Escape(value), "\"");
  }

  lemma {:induction false} LegalAttributesStep(attrs: Attributes)
    requires attrs != []
    ensures LegalAttributes(attrs) <==> LegalAttributes(attrs[..|attrs| - 1]) && AllLegal(attrs[|attrs| - 1].1)
  {
    var before := attrs[..|attrs| - 1];
    assert forall i :: 0 <= i < |before| ==> before[i] == attrs[i];
  }

  lemma {:induction false} AttributesLegal(attrs: Attributes)
    requires GoodAttributes(attrs)
    ensures AllLegal(AttributesText(attrs)) <==> LegalAttributes(attrs)
    decreases |attrs|
  {
    if attrs != [] {
      var before, last := attrs[..|attrs| - 1], attrs[|attrs| - 1];
      NewKey(attrs);
      AttributesLegal(before);
      AttributeLegal(last.0, last.1);
      LegalConcat(AttributesText(before), AttributeText(last));
      LegalAttributesStep(attrs);
    }
  }

  lemma {:induction false} HeadLegal(tag: string, attrs: Attributes)
    requires IsName(tag) && GoodAttributes(attrs)
    ensures AllLegal(Head(tag, attrs)) <==> LegalAttributes(attrs)
  {
    LegalConcat("<", tag);
    AttributesLegal(attrs);
    LegalConcat("<" + tag, AttributesText(attrs));
  }

  /** A character that XML excludes shows in the text exactly when the fragment has one. */
  lemma {:induction false} PrintLegal(x: Fragment)
    requires Proper(x)
    ensures AllLegal(Print(x)) <==> LegalFragment(x)
  {
    match x
    case Nothing =>
    case Both(a, b) =>
      PrintLegal(a);
      PrintLegal(b);
      LegalConcat(Print(a), Print(b));
    case Words(text) => EscapeKeepsLegal(text);
    case Lines(text) =>
      EscapeKeepsLegal(text);
      ReplaceKeepsLegal(Escape(text));
    case Element(tag, attrs, body) =>
      var head := Head(tag, attrs);
      PrintLegal(body);
      HeadLegal(tag, attrs);
      LegalConcat(head, ">");
      LegalConcat(head + ">", Print(body));
      LegalConcat(head + ">" + Print(body), "</");
      LegalConcat(head + ">" + Print(body) + "</", tag);
      LegalConcat(head + ">" + Print(body) + "</" + tag, ">");
    case Void(tag, attrs) =>
      HeadLegal(tag, attrs);
      LegalConcat(Head(tag, attrs), "/>");
  }

  // ------------------------------------------------------------ round trip

  /** What element content keeps through section 2.11, and attribute values through 3.3.3. */
  predicate CleanChar(c: char) {
    Legal(c) && c != '\r'
  }

  predicate CleanValueChar(c: char) {
    CleanChar(c) && c != '\t' && c != '\n'
  }

  predicate CleanText(s: string) {
    forall i :: 0 <= i < |s| ==> CleanChar(s[i])
  }

  predicate CleanValue(s: string) {
    forall i :: 0 <= i < |s| ==> CleanValueChar(s[i])
  }

  predicate CleanAttributes(attrs: Attributes) {
    forall i :: 0 <= i < |attrs| ==> CleanValue(attrs[i].1)
  }

  predicate CleanFragment(x: Fragment) {
    match x
    case Nothing => true
    case Both(a, b) => CleanFragment(a) && CleanFragment(b)
    case Words(text) => CleanText(text)
    case Lines(text) => CleanText(text)
    case Element(_, attrs, body) => CleanAttributes(attrs) && CleanFragment(body)
    case Void(_, attrs) => CleanAttributes(attrs)
  }

  predicate CleanToken(t: Token) {
    match t
    case Open(_, attrs) => CleanAttributes(attrs)
    case Close(_) => true
    case Char(c) => CleanChar(c)
  }

  predicate CleanTokens(ts: seq<Token>) {
    forall i :: 0 <= i < |ts| ==> CleanToken(ts[i])
  }

  predicate CleanMode(m: Mode) {
    match m
    case InTag(_, attrs) => CleanAttributes(attrs)
    case Key(_, attrs, _) => CleanAttributes(attrs)
    case Equals(_, attrs, _) => CleanAttributes(attrs)
    case Value(_, attrs, _, value) => CleanAttributes(attrs) && CleanValue(value)
    case ValueRef(_, attrs, _, value, _) => CleanAttributes(attrs) && CleanValue(value)
    case AfterValue(_, attrs) => CleanAttributes(attrs)
    case SelfClosing(_, attrs) => CleanAttributes(attrs)
    case _ => true
  }

  lemma {:induction false} CleanConcat(a: seq<Token>, b: seq<Token>)
    ensures CleanTokens(a + b) <==> CleanTokens(a) && CleanTokens(b)
  {
    var ab := a + b;
    assert forall i :: 0 <= i < |a| ==> a[i] == ab[i];
    assert forall i :: 0 <= i < |b| ==> b[i] == ab[|a| + i];
  }

  /** A reader never reports a carriage return, nor white space other than spaces in a value. */
  lemma {:induction false} OnlyCleanTokensAreRead(m: Mode, s: string)
    requires CleanMode(m) && '\r' !in s
    ensures CleanTokens(Run(m, s).1)
    decreases |s|
  {
    if s != "" {
      var first := Step(m, s[0]);
      assert s[0] in s;
      assert forall c :: c in s[1..] ==> c in s;
      StepStaysClean(m, s[0]);
      OnlyCleanTokensAreRead(first.0, s[1..]);
      CleanConcat(first.1, Run(first.0, s[1..]).1);
    }
  }

  lemma {:induction false} StepStaysClean(m: Mode, c: char)
    requires CleanMode(m) && c != '\r'
    ensures CleanMode(Step(m, c).0) && CleanTokens(Step(m, c).1)
  {
  }

  lemma {:induction false} CleanTextStays(s: string)
    requires CleanText(s)
    ensures AllLegal(s) && Normalized(s) == s
    ensures CleanValue(s) ==> SpacedAll(s) == s
    ensures LineTokens(s, true) == LineTokens(s, false)
  {
    NoLineEndStays(s);
    if s != "" {
      var rest := s[1..];
      assert forall i :: 0 <= i < |rest| ==> rest[i] == s[i + 1];
      CleanTextStays(rest);
      assert s == [s[0]] + rest;
    }
  }

  lemma {:induction false} CharsClean(s: string)
    ensures CleanTokens(Chars(s)) <==> CleanText(s)
    ensures CleanTokens(LineTokens(s, false)) <==> CleanText(s)
  {
    if s != "" {
      var c, rest := s[0], s[1..];
      CharsClean(rest);
      CleanConcat([Char(c)], Chars(rest));
      CleanConcat(if c == '\n' then [Open("br", []), Close("br")] else [Char(c)], LineTokens(rest, false));
      assert CleanToken([Char(c)][0]) <==> CleanChar(c);
      assert CleanText(s) <==> CleanChar(c) && CleanText(rest) by {
        assert forall i :: 0 <= i < |rest| ==> rest[i] == s[i + 1];
        assert forall i :: 0 < i < |s| ==> s[i] == rest[i - 1];
      }
    }
  }

  lemma {:induction false} CleanAttributesStay(attrs: Attributes)
    requires CleanAttributes(attrs)
    ensures AttributesAs(attrs, true) == attrs && LegalAttributes(attrs)
  {
    forall i | 0 <= i < |attrs|
      ensures AllLegal(attrs[i].1) && SpacedAll(Normalized(attrs[i].1)) == attrs[i].1
    {
      assert CleanValue(attrs[i].1);
      CleanTextStays(attrs[i].1);
    }
  }

  lemma {:induction false} AttributesAsWritten(attrs: Attributes)
    ensures AttributesAs(attrs, false) == attrs
  {
  }

  lemma {:induction false} CleanFragmentStays(x: Fragment)
    requires CleanFragment(x)
    ensures LegalFragment(x) && Tokens(x, true) == Tokens(x, false)
  {
    match x
    case Nothing =>
    case Both(a, b) =>
      CleanFragmentStays(a);
      CleanFragmentStays(b);
    case Words(text) => CleanTextStays(text);
    case Lines(text) => CleanTextStays(text);
    case Element(_, attrs, body) =>
      CleanAttributesStay(attrs);
      AttributesAsWritten(attrs);
      CleanFragmentStays(body);
    case Void(_, attrs) =>
      CleanAttributesStay(attrs);
      AttributesAsWritten(attrs);
  }

  lemma {:induction false} TokensClean(x: Fragment)
    ensures CleanTokens(Tokens(x, false)) <==> CleanFragment(x)
  {
    match x
    case Nothing =>
    case Both(a, b) =>
      TokensClean(a);
      TokensClean(b);
      CleanConcat(Tokens(a, false), Tokens(b, false));
    case Words(text) => CharsClean(text);
    case Lines(text) => CharsClean(text);
    case Element(tag, attrs, body) =>
      var open := [Open(tag, attrs)];
      AttributesAsWritten(attrs);
      TokensClean(body);
      CleanConcat(open, Tokens(body, false));
      CleanConcat(open + Tokens(body, false), [Close(tag)]);
      assert CleanTokens(open) <==> CleanToken(open[0]);
    case Void(tag, attrs) =>
      AttributesAsWritten(attrs);
      var both := [Open(tag, attrs), Close(tag)];
      assert CleanTokens(both) <==> CleanToken(both[0]);
  }

  /**
   The text of a fragment reads as the fragment, character by character and
   attribute by attribute, exactly when it holds no character that XML excludes
   or normalises away.
   */
  lemma {:induction false} ReadsBack(x: Fragment)
    requires Proper(x)
    ensures Reads(Print(x), Tokens(x, false)) <==> CleanFragment(x)
  {
    if CleanFragment(x) {
      CleanFragmentStays(x);
      PrintReads(x);
    }
    if Reads(Print(x), Tokens(x, false)) {
      NormalizedIsClean(Print(x));
      OnlyCleanTokensAreRead(Text, Normalized(Print(x)));
      TokensClean(x);
    }
  }

  // -------------------------------------------------------------- structure

  /** The elements still open after `ts`, unless an end tag does not match. */
  function Nest(open: seq<string>, ts: seq<Token>): Option<seq<string>>
    decreases |ts|
  {
    if ts == [] then Some(open)
    else match ts[0]
      case Open(tag, _) => Nest(open + [tag], ts[1..])
      case Close(tag) =>
        if open != [] && open[|open| - 1] == tag then Nest(open[..|open| - 1], ts[1..]) else None
      case Char(_) => Nest(open, ts[1..])
  }

  lemma {:induction false} NestConcat(open: seq<string>, a: seq<Token>, b: seq<Token>)
    requires Nest(open, a).Some?
    ensures Nest(open, a + b) == Nest(Nest(open, a).value, b)
    decreases |a|
  {
    if a == [] {
      assert a + b == b;
    } else {
      assert (a + b)[1..] == a[1..] + b;
      var next := match a[0]
        case Open(tag, _) => open + [tag]
        case Close(tag) => open[..|open| - 1]
        case Char(_) => open;
      NestConcat(next, a[1..], b);
    }
  }

  lemma {:induction false} CharsNest(open: seq<string>, s: string, seen: bool)
    ensures Nest(open, Chars(s)) == Some(open)
    ensures Nest(open, LineTokens(s, seen)) == Some(open)
    decreases |s|
  {
    if s != "" {
      var c, rest := s[0], s[1..];
      CharsNest(open, rest, seen);
      assert Chars(s)[1..] == Chars(rest);
      if c == '\n' {
        VoidNests(open, "br", []);
        NestConcat(open, [Open("br", []), Close("br")], LineTokens(rest, seen));
      } else {
        assert LineTokens(s, seen)[1..] == LineTokens(rest, seen);
      }
    }
  }

  lemma {:induction false} VoidNests(open: seq<string>, tag: string, attrs: Attributes)
    ensures Nest(open, [Open(tag, attrs), Close(tag)]) == Some(open)
  {
    var ts := [Open(tag, attrs), Close(tag)];
    assert ts[1..] == [Close(tag)] && ts[1..][1..] == [];
    assert (open + [tag])[..|open|] == open;
    assert Nest(open + [tag], [Close(tag)]) == Some(open);
  }

  /** Every start tag has its end tag, properly nested, whatever surrounds the fragment. */
  lemma {:induction false} TokensNest(open: seq<string>, x: Fragment, seen: bool)
    ensures Nest(open, Tokens(x, seen)) == Some(open)
    decreases x
  {
    match x
    case Nothing =>
    case Both(a, b) =>
      TokensNest(open, a, seen);
      TokensNest(open, b, seen);
      NestConcat(open, Tokens(a, seen), Tokens(b, seen));
    case Words(text) => CharsNest(open, if seen then Normalized(text) else text, seen);
    case Lines(text) => CharsNest(open, text, seen);
    case Element(tag, attrs, body) =>
      var start := [Open(tag, AttributesAs(attrs, seen))];
      var inside := open + [tag];
      assert start[1..] == [] && Nest(open, start) == Some(inside);
      TokensNest(inside, body, seen);
      NestConcat(open, start, Tokens(body, seen));
      NestConcat(open, start + Tokens(body, seen), [Close(tag)]);
      assert [Close(tag)][1..] == [] && inside[..|open|] == open;
      assert Nest(inside, [Close(tag)]) == Some(open);
    case Void(tag, attrs) => VoidNests(open, tag, AttributesAs(attrs, seen));
  }

  /** The tags a fragment may put into its text. */
  predicate Uses(x: Fragment, tags: set<string>) {
    match x
    case Nothing => true
    case Both(a, b) => Uses(a, tags) && Uses(b, tags)
    case Words(_) => true
    case Lines(_) => "br" in tags
    case Element(tag, _, body) => tag in tags && Uses(body, tags)
    case Void(tag, _) => tag in tags
  }

  predicate OpensOnly(ts: seq<Token>, tags: set<string>) {
    forall i :: 0 <= i < |ts| && ts[i].Open? ==> ts[i].tag in tags
  }

  lemma {:induction false} LinesOpenOnly(s: string, seen: bool, tags: set<string>)
    ensures OpensOnly(Chars(s), tags)
    ensures "br" in tags ==> OpensOnly(LineTokens(s, seen), tags)
  {
    if s != "" {
      LinesOpenOnly(s[1..], seen, tags);
    }
  }

  lemma {:induction false} TokensOpenOnly(x: Fragment, seen: bool, tags: set<string>)
    requires Uses(x, tags)
    ensures OpensOnly(Tokens(x, seen), tags)
  {
    match x
    case Nothing =>
    case Both(a, b) =>
      TokensOpenOnly(a, seen, tags);
      TokensOpenOnly(b, seen, tags);
    case Words(text) => LinesOpenOnly(if seen then Normalized(text) else text, seen, tags);
    case Lines(text) => LinesOpenOnly(text, seen, tags);
    case Element(_, _, body) => TokensOpenOnly(body, seen, tags);
    case Void(_, _) =>
  }
}
