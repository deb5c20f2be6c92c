/** The styled characters a reader sees in compiled rich text are those of the spans. */
module RichTextMeaning {
  import opened Outcomes
  import opened Markup
  import opened MarkupPrinter
  import opened MarkupTheorems
  import opened MarkupTexts
  import opened RichText

  // ------------------------------------------------------------- well-formed

  /** The fragment's text cannot be the second half of a line end. */
  ghost predicate StartsSafe(x: Fragment) {
    Print(x) == "" || Print(x)[0] != '\n'
  }

  ghost predicate Embeddable(x: Fragment) {
    Proper(x) && StartsSafe(x)
  }

  lemma {:induction false} WrappedEmbeds(on: bool, tag: string, attrs: Attributes, body: Fragment)
    requires Embeddable(body) && IsName(tag) && (on ==> GoodAttributes(attrs))
    ensures Embeddable(Wrapped(on, tag, attrs, body))
  {
  }

  lemma {:induction false} AllEmbed(xs: seq<Fragment>)
    requires forall i :: 0 <= i < |xs| ==> Embeddable(xs[i])
    ensures Embeddable(All(xs))
  {
    if xs != [] {
      AllEmbed(xs[..|xs| - 1]);
    }
  }

  lemma {:induction false} ColorsAreGood(s: Span)
    ensures GoodAttributes(Present(Colors(s)))
  {
    PresentIsGood(Colors(s));
  }

  lemma {:induction false} ColoredEmbeds(s: Span)
    ensures Embeddable(Colored(s))
  {
    LineTextStart(s.text);
    ColorsAreGood(s);
    WrappedEmbeds(s.textColor.Some? || s.backgroundColor.Some?, "span", Present(Colors(s)), Lines(s.text));
  }

  lemma {:induction false} StruckEmbeds(s: Span)
    ensures Embeddable(Wrapped(s.strike, "del", [], Wrapped(s.underline, "u", [], Wrapped(s.inlineCode, "code", [], Colored(s)))))
  {
    var coded := Wrapped(s.inlineCode, "code", [], Colored(s));
    var underlined := Wrapped(s.underline, "u", [], coded);
    ColoredEmbeds(s);
    WrappedEmbeds(s.inlineCode, "code", [], Colored(s));
    WrappedEmbeds(s.underline, "u", [], coded);
    WrappedEmbeds(s.strike, "del", [], underlined);
  }

  lemma {:induction false} SpanEmbeds(s: Span)
    ensures Embeddable(SpanFragment(s))
  {
    if s.formula {
      LineTextStart(s.text);
      WrappedEmbeds(true, "latex", [], Lines(s.text));
    } else {
      var struck := Wrapped(s.strike, "del", [], Wrapped(s.underline, "u", [], Wrapped(s.inlineCode, "code", [], Colored(s))));
      StruckEmbeds(s);
      WrappedEmbeds(s.emphasis, "em", [], struck);
      WrappedEmbeds(s.bold, "b", [], Wrapped(s.emphasis, "em", [], struck));
      WrappedEmbeds(s.link.Some?, "a", LinkAttributes(s), Emphasized(s));
    }
  }

  lemma {:induction false} RichTextEmbeds(spans: seq<Span>)
    ensures Embeddable(RichFragment(spans))
  {
    forall i | 0 <= i < |spans|
      ensures Embeddable(SpanFragments(spans)[i])
    {
      SpanEmbeds(spans[i]);
    }
    AllEmbed(SpanFragments(spans));
  }

  // ------------------------------------------------------------------ reading

  datatype Style = Style(
    bold: bool, emphasis: bool, strike: bool, underline: bool, code: bool, formula: bool,
    link: Option<string>, textColor: Option<string>, backgroundColor: Option<string>)

  const PLAIN := Style(false, false, false, false, false, false, None, None, None)

  type Styled = seq<(char, Style)>

  function Lookup(attrs: Attributes, key: string): Option<string> {
    if attrs == [] then None
    else if attrs[0].0 == key then Some(attrs[0].1)
    else Lookup(attrs[1..], key)
  }

  /** How an element changes the style of what it holds. */
  function Restyled(style: Style, tag: string, attrs: Attributes): Style {
    if tag == "b" then style.(bold := true)
    else if tag == "em" then style.(emphasis := true)
    else if tag == "del" then style.(strike := true)
    else if tag == "u" then style.(underline := true)
    else if tag == "code" then style.(code := true)
    else if tag == "latex" then style.(formula := true)
    else if tag == "a" then style.(link := Lookup(attrs, "href"))
    else if tag == "span" then
      style.(textColor := Lookup(attrs, "text-color"), backgroundColor := Lookup(attrs, "background-color"))
    else style
  }

  function Top(styles: seq<Style>): Style {
    if styles == [] then PLAIN else styles[|styles| - 1]
  }

  /** The characters of a token stream with the style the open elements give them; `br` is a line feed. */
  function Painted(styles: seq<Style>, ts: seq<Token>): Styled
    decreases |ts|
  {
    if ts == [] then []
    else match ts[0]
      case Char(c) => [(c, Top(styles))] + Painted(styles, ts[1..])
      case Close(_) => Painted(if styles == [] then [] else styles[..|styles| - 1], ts[1..])
      case Open(tag, attrs) =>
        (if tag == "br" then [('\n', Top(styles))] else [])
        + Painted(styles + [Restyled(Top(styles), tag, attrs)], ts[1..])
  }

  /** Reads a piece of markup as styled characters, if it is well formed. */
  function ReadStyled(text: string): Option<Styled> {
    var (mode, ts) := Run(Text, Normalized(text));
    if mode == Text && Nest([], ts) == Some([]) then Some(Painted([], ts)) else None
  }

  // ------------------------------------------------------------------ meaning

  function Evenly(text: string, style: Style): Styled {
    if text == "" then [] else [(text[0], style)] + Evenly(text[1..], style)
  }

  function SpanStyle(s: Span): Style {
    Style(s.bold, s.emphasis, s.strike, s.underline, s.inlineCode, s.formula,
          s.link, Named(s.textColor), Named(s.backgroundColor))
  }

  /** What the author wrote: every character in the style of its span. */
  function Meaning(spans: seq<Span>): Styled {
    if spans == [] then []
    else
      var last := spans[|spans| - 1];
      Meaning(spans[..|spans| - 1]) + Evenly(last.text, SpanStyle(last))
  }

  /** The styled characters of a fragment in a given style. */
  function Look(style: Style, x: Fragment): Styled
    decreases x
  {
    match x
    case Nothing => []
    case Both(a, b) => Look(style, a) + Look(style, b)
    case Words(text) => Evenly(text, style)
    case Lines(text) => Evenly(text, style)
    case Element(tag, attrs, body) => (if tag == "br" then [('\n', style)] else []) + Look(Restyled(style, tag, attrs), body)
    case Void(tag, _) => if tag == "br" then [('\n', style)] else []
  }

  lemma {:induction false} PaintedChar(styles: seq<Style>, c: char, ts: seq<Token>)
    ensures Painted(styles, [Char(c)] + ts) == [(c, Top(styles))] + Painted(styles, ts)
  {
    assert ([Char(c)] + ts)[1..] == ts;
  }

  lemma StyledAssociative(a: Styled, b: Styled, c: Styled)
    ensures a + (b + c) == (a + b) + c
  {
  }

  lemma {:induction false} PaintedText(styles: seq<Style>, s: string, ts: seq<Token>)
    ensures Painted(styles, Chars(s) + ts) == Evenly(s, Top(styles)) + Painted(styles, ts)
    decreases |s|
  {
    if s == "" {
      assert Chars(s) + ts == ts;
    } else {
      var rest := Chars(s[1..]) + ts;
      assert Chars(s) + ts == [Char(s[0])] + rest;
      PaintedChar(styles, s[0], rest);
      PaintedText(styles, s[1..], ts);
      StyledAssociative([(s[0], Top(styles))], Evenly(s[1..], Top(styles)), Painted(styles, ts));
    }
  }

  lemma {:induction false} PaintedElement(styles: seq<Style>, tag: string, attrs: Attributes, ts: seq<Token>)
    ensures Painted(styles, [Open(tag, attrs)] + ts)
         == (if tag == "br" then [('\n', Top(styles))] else []) + Painted(styles + [Restyled(Top(styles), tag, attrs)], ts)
    ensures Painted(styles + [Restyled(Top(styles), tag, attrs)], [Close(tag)] + ts) == Painted(styles, ts)
  {
    assert ([Open(tag, attrs)] + ts)[1..] == ts && ([Close(tag)] + ts)[1..] == ts;
    assert (styles + [Restyled(Top(styles), tag, attrs)])[..|styles|] == styles;
  }

  lemma {:induction false} PaintedVoid(styles: seq<Style>, tag: string, attrs: Attributes, ts: seq<Token>)
    ensures Painted(styles, [Open(tag, attrs), Close(tag)] + ts)
         == (if tag == "br" then [('\n', Top(styles))] else []) + Painted(styles, ts)
  {
    assert [Open(tag, attrs), Close(tag)] + ts == [Open(tag, attrs)] + ([Close(tag)] + ts);
    PaintedElement(styles, tag, attrs, [Close(tag)] + ts);
    PaintedElement(styles, tag, attrs, ts);
  }

  lemma {:induction false} PaintedLines(styles: seq<Style>, s: string, ts: seq<Token>)
    ensures Painted(styles, LineTokens(s, false) + ts) == Evenly(s, Top(styles)) + Painted(styles, ts)
    decreases |s|
  {
    if s == "" {
      assert LineTokens(s, false) + ts == ts;
    } else {
      var c := s[0];
      var rest := LineTokens(s[1..], false) + ts;
      PaintedLines(styles, s[1..], ts);
      if c == '\n' {
        assert LineTokens(s, false) + ts == [Open("br", []), Close("br")] + rest;
        PaintedVoid(styles, "br", [], rest);
      } else {
        assert LineTokens(s, false) + ts == [Char(c)] + rest;
        PaintedChar(styles, c, rest);
      }
      StyledAssociative([(c, Top(styles))], Evenly(s[1..], Top(styles)), Painted(styles, ts));
    }
  }

  lemma {:induction false} PaintedAround(
    styles: seq<Style>, tag: string, attrs: Attributes, body: seq<Token>, look: Styled, ts: seq<Token>)
    requires Painted(styles + [Restyled(Top(styles), tag, attrs)], body + ([Close(tag)] + ts))
          == look + Painted(styles + [Restyled(Top(styles), tag, attrs)], [Close(tag)] + ts)
    ensures Painted(styles, [Open(tag, attrs)] + body + [Close(tag)] + ts)
         == (if tag == "br" then [('\n', Top(styles))] else []) + look + Painted(styles, ts)
  {
    var rest := body + ([Close(tag)] + ts);
    assert [Open(tag, attrs)] + body + [Close(tag)] + ts == [Open(tag, attrs)] + rest;
    PaintedElement(styles, tag, attrs, rest);
    PaintedElement(styles, tag, attrs, ts);
  }

  lemma {:induction false} PaintedFragment(styles: seq<Style>, x: Fragment, ts: seq<Token>)
    ensures Painted(styles, Tokens(x, false) + ts) == Look(Top(styles), x) + Painted(styles, ts)
    decreases x
  {
    match x
    case Nothing => assert Tokens(x, false) + ts == ts;
    case Both(a, b) =>
      var tail := Tokens(b, false) + ts;
      assert Tokens(x, false) + ts == Tokens(a, false) + tail;
      PaintedFragment(styles, a, tail);
      PaintedFragment(styles, b, ts);
    case Words(text) => PaintedText(styles, text, ts);
    case Lines(text) => PaintedLines(styles, text, ts);
    case Element(tag, attrs, body) =>
      AttributesAsWritten(attrs);
      var inner := Restyled(Top(styles), tag, attrs);
      PaintedFragment(styles + [inner], body, [Close(tag)] + ts);
      PaintedAround(styles, tag, attrs, Tokens(body, false), Look(inner, body), ts);
    case Void(tag, attrs) =>
      AttributesAsWritten(attrs);
      PaintedVoid(styles, tag, attrs, ts);
  }

  lemma {:induction false} ColorsLookedUp(s: Span)
    ensures Lookup(Present(Colors(s)), "text-color") == Named(s.textColor)
    ensures Lookup(Present(Colors(s)), "background-color") == Named(s.backgroundColor)
  {
    var values := Colors(s);
    var first := values[..1];
    assert first[..0] == [] && first[0] == values[0];
    assert Present(first) == if s.textColor.Some? then [("text-color", ColorName(s.textColor.value))] else [];
    assert Present(values) == Present(first)
        + if s.backgroundColor.Some? then [("background-color", ColorName(s.backgroundColor.value))] else [];
    var present := Present(values);
    if |present| == 2 {
      assert present[1..] == [present[1]] && present[1..][1..] == [];
    } else if |present| == 1 {
      assert present[1..] == [];
    }
  }

  lemma {:induction false} WrappedLook(style: Style, on: bool, tag: string, attrs: Attributes, body: Fragment)
    requires tag != "br"
    ensures Look(style, Wrapped(on, tag, attrs, body)) == Look(if on then Restyled(style, tag, attrs) else style, body)
  {
  }

  lemma {:induction false} InnerLook(s: Span, style: Style)
    requires style == Style(s.bold, s.emphasis, s.strike, false, false, false, s.link, None, None)
    requires ValidSpan(s) && !s.formula
    ensures Look(style, Wrapped(s.underline, "u", [], Wrapped(s.inlineCode, "code", [], Colored(s))))
         == Evenly(s.text, SpanStyle(s))
  {
    ColorsLookedUp(s);
    WrappedLook(style, s.underline, "u", [], Wrapped(s.inlineCode, "code", [], Colored(s)));
    WrappedLook(style.(underline := s.underline), s.inlineCode, "code", [], Colored(s));
  }

  lemma {:induction false} SpanLook(s: Span)
    requires ValidSpan(s)
    ensures Look(PLAIN, SpanFragment(s)) == Evenly(s.text, SpanStyle(s))
  {
    if !s.formula {
      var linked := PLAIN.(link := s.link);
      var bold := linked.(bold := s.bold);
      var emphasized := bold.(emphasis := s.emphasis);
      var underlined := Wrapped(s.underline, "u", [], Wrapped(s.inlineCode, "code", [], Colored(s)));
      var struck := Wrapped(s.strike, "del", [], underlined);
      WrappedLook(PLAIN, s.link.Some?, "a", LinkAttributes(s), Emphasized(s));
      WrappedLook(linked, s.bold, "b", [], Wrapped(s.emphasis, "em", [], struck));
      WrappedLook(bold, s.emphasis, "em", [], struck);
      WrappedLook(emphasized, s.strike, "del", [], underlined);
      InnerLook(s, emphasized.(strike := s.strike));
    }
  }

  lemma {:induction false} RichTextLook(spans: seq<Span>)
    requires forall i :: 0 <= i < |spans| ==> ValidSpan(spans[i])
    ensures Look(PLAIN, RichFragment(spans)) == Meaning(spans)
  {
    if spans != [] {
      var before := spans[..|spans| - 1];
      RichTextLook(before);
      SpanLook(spans[|spans| - 1]);
      assert SpanFragments(spans)[..|spans| - 1] == SpanFragments(before);
    }
  }

  // ------------------------------------------------------------- the theorem

  predicate CleanStyle(style: Style) {
    style.link.Some? ==> CleanValue(style.link.value)
  }

  ghost predicate CleanStyled(cs: Styled) {
    forall i :: 0 <= i < |cs| ==> CleanChar(cs[i].0) && CleanStyle(cs[i].1)
  }

  lemma {:induction false} LookedUpIsClean(attrs: Attributes, key: string)
    requires CleanAttributes(attrs)
    ensures Lookup(attrs, key).Some? ==> CleanValue(Lookup(attrs, key).value)
  {
    if attrs != [] {
      assert CleanValue(attrs[0].1);
      assert forall i :: 0 <= i < |attrs[1..]| ==> attrs[1..][i] == attrs[i + 1];
      LookedUpIsClean(attrs[1..], key);
    }
  }

  predicate CleanStyles(styles: seq<Style>) {
    forall i :: 0 <= i < |styles| ==> CleanStyle(styles[i])
  }

  lemma {:induction false} RestyledIsClean(styles: seq<Style>, tag: string, attrs: Attributes)
    requires CleanStyles(styles) && CleanAttributes(attrs)
    ensures CleanStyle(Top(styles)) && CleanStyle(Restyled(Top(styles), tag, attrs))
  {
    if tag == "a" {
      LookedUpIsClean(attrs, "href");
    } else {
      assert Restyled(Top(styles), tag, attrs).link == Top(styles).link;
    }
  }

  lemma {:induction false} PaintedIsClean(styles: seq<Style>, ts: seq<Token>)
    requires CleanTokens(ts) && CleanStyles(styles)
    ensures CleanStyled(Painted(styles, ts))
    decreases |ts|
  {
    if ts != [] {
      var rest := ts[1..];
      assert CleanToken(ts[0]);
      CleanConcat([ts[0]], rest);
      assert [ts[0]] + rest == ts;
      match ts[0]
      case Open(tag, attrs) =>
        RestyledIsClean(styles, tag, attrs);
        var inner := styles + [Restyled(Top(styles), tag, attrs)];
        PaintedIsClean(inner, rest);
        CleanStyledConcat(if tag == "br" then [('\n', Top(styles))] else [], Painted(inner, rest));
      case Close(_) => PaintedIsClean(if styles == [] then [] else styles[..|styles| - 1], rest);
      case Char(c) =>
        PaintedIsClean(styles, rest);
        RestyledIsClean(styles, "", []);
        CleanStyledConcat([(c, Top(styles))], Painted(styles, rest));
    }
  }

  lemma {:induction false} EvenlyAt(text: string, style: Style)
    ensures |Evenly(text, style)| == |text|
    ensures forall i :: 0 <= i < |text| ==> Evenly(text, style)[i] == (text[i], style)
  {
    if text != "" {
      EvenlyAt(text[1..], style);
    }
  }

  lemma {:induction false} MeaningIsClean(spans: seq<Span>)
    requires forall i :: 0 <= i < |spans| ==> ValidSpan(spans[i])
    ensures CleanStyled(Meaning(spans)) <==> CleanRich(spans)
  {
    if spans != [] {
      var before, last := spans[..|spans| - 1], spans[|spans| - 1];
      var head, tail := Meaning(before), Evenly(last.text, SpanStyle(last));
      assert forall i :: 0 <= i < |before| ==> before[i] == spans[i];
      MeaningIsClean(before);
      EvenlyAt(last.text, SpanStyle(last));
      assert CleanStyled(tail) <==> CleanSpan(last) by {
        assert tail[0] == (last.text[0], SpanStyle(last));
      }
      CleanStyledConcat(head, tail);
    }
  }

  lemma {:induction false} CleanStyledConcat(a: Styled, b: Styled)
    ensures CleanStyled(a + b) <==> CleanStyled(a) && CleanStyled(b)
  {
    var ab := a + b;
    assert forall i :: 0 <= i < |a| ==> a[i] == ab[i];
    assert forall i :: 0 <= i < |b| ==> b[i] == ab[|a| + i];
  }

  lemma {:induction false} CleanRichPrintsClean(spans: seq<Span>)
    ensures CleanFragment(RichFragment(spans)) <==> CleanRich(spans)
  {
    RichTextCarries(spans);
    CarriedDecides(RichFragment(spans), RichPieces(spans));
    RichTextDecides(spans);
  }

  /**
   A reader of the compiled text sees the author's characters, each in its style and
   under its link, exactly when no text holds a carriage return, no link holds a tab or
   line end, and neither holds a character that XML excludes.
   */
  lemma {:induction false} RichTextReadsBack(spans: seq<Span>)
    requires forall i :: 0 <= i < |spans| ==> ValidSpan(spans[i])
    ensures ReadStyled(RenderRichText(spans)) == Some(Meaning(spans))
            <==> CleanRich(spans)
  {
    var x := RichFragment(spans);
    var text := RenderRichText(spans);
    RichTextPrinted(spans);
    MeaningIsClean(spans);
    if CleanRich(spans) {
      RichTextEmbeds(spans);
      CleanRichPrintsClean(spans);
      ReadsBack(x);
      TokensNest([], x, false);
      PaintedFragment([], x, []);
      assert Tokens(x, false) + [] == Tokens(x, false);
      RichTextLook(spans);
      assert Look(PLAIN, x) + [] == Look(PLAIN, x);
    } else {
      NormalizedIsClean(text);
      OnlyCleanTokensAreRead(Text, Normalized(text));
      PaintedIsClean([], Run(Text, Normalized(text)).1);
    }
  }

  function Plain(text: string, link: Option<string>): Span {
    Span(text, false, false, false, false, false, false, link, None, None)
  }

  lemma {:induction false} LostInSpan(s: Span)
    requires ValidSpan(s) && !CleanSpan(s)
    ensures ReadStyled(RenderRichText([s])) != Some(Meaning([s]))
  {
    assert !CleanSpan([s][0]);
    RichTextReadsBack([s]);
  }

  /** A carriage return in a text, or a tab in a link, and the reader sees something else. */
  lemma {:induction false} LostInRichText()
    ensures var text, link := Plain("a\rb", None), Plain("a", Some("https://x/\ty"));
            && ValidSpan(text) && ReadStyled(RenderRichText([text])) != Some(Meaning([text]))
            && ValidSpan(link) && ReadStyled(RenderRichText([link])) != Some(Meaning([link]))
  {
    var text, link := Plain("a\rb", None), Plain("a", Some("https://x/\ty"));
    assert !CleanChar(text.text[1]);
    assert link.link.value[..8] == "https://" && !CleanValueChar(link.link.value[10]);
    LostInSpan(text);
    LostInSpan(link);
  }
}
