/** Styled text: how spans become markup, and that a reader of the markup sees the same styled characters. */
module RichText {
  import opened Outcomes
  import opened Markup
  import opened MarkupPrinter
  import opened MarkupTheorems

  datatype Color =
    | Red | Orange | Yellow | Green | Blue | Purple | Gray
    | LightRed | LightOrange | LightYellow | LightGreen | LightBlue | LightPurple | LightGray | MediumGray

  datatype Span = Span(
    text: string, bold: bool, emphasis: bool, strike: bool, underline: bool, inlineCode: bool, formula: bool,
    link: Option<string>, textColor: Option<Color>, backgroundColor: Option<Color>)

  function ColorName(c: Color): string {
    match c
    case Red => "red" case Orange => "orange" case Yellow => "yellow" case Green => "green"
    case Blue => "blue" case Purple => "purple" case Gray => "gray"
    case LightRed => "light-red" case LightOrange => "light-orange" case LightYellow => "light-yellow"
    case LightGreen => "light-green" case LightBlue => "light-blue" case LightPurple => "light-purple"
    case LightGray => "light-gray" case MediumGray => "medium-gray"
  }

  function Named(c: Option<Color>): Option<string> {
    if c.None? then None else Some(ColorName(c.value))
  }

  /** The spans the document model accepts. */
  predicate ValidSpan(s: Span) {
    && s.text != ""
    && (s.link.Some? ==> "https://" <= s.link.value)
    && (s.formula ==>
          && !s.bold && !s.emphasis && !s.strike && !s.underline && !s.inlineCode
          && s.link.None? && s.textColor.None? && s.backgroundColor.None?)
  }

  // --------------------------------------------------------------- attributes

  type OptionalAttributes = seq<(string, Option<string>)>

  /** The attributes that have a value, in order. */
  function Present(values: OptionalAttributes): Attributes {
    if values == [] then []
    else
      var last := values[|values| - 1];
      Present(values[..|values| - 1]) + if last.1.Some? then [(last.0, last.1.value)] else []
  }

  function RenderAttributes(values: OptionalAttributes): string {
    if values == [] then ""
    else
      var last := values[|values| - 1];
      RenderAttributes(values[..|values| - 1])
      + if last.1.Some? then " " + last.0 + "=\"" + Escape(last.1.value) + "\"" else ""
  }

  lemma {:induction false} AttributesPrinted(values: OptionalAttributes)
    ensures RenderAttributes(values) == AttributesText(Present(values))
  {
    if values != [] {
      var before, last := values[..|values| - 1], values[|values| - 1];
      AttributesPrinted(before);
      if last.1.Some? {
        var attrs := Present(values);
        assert attrs[..|attrs| - 1] == Present(before) && attrs[|attrs| - 1] == (last.0, last.1.value);
      } else {
        assert Present(before) + [] == Present(before);
      }
    }
  }

  ghost predicate GoodKeys(values: OptionalAttributes) {
    && (forall i :: 0 <= i < |values| ==> IsName(values[i].0))
    && forall i, j :: 0 <= i < j < |values| ==> values[i].0 != values[j].0
  }

  lemma {:induction false} PresentIsGood(values: OptionalAttributes)
    requires GoodKeys(values)
    ensures GoodAttributes(Present(values))
    ensures forall i :: 0 <= i < |Present(values)| ==>
              exists j :: 0 <= j < |values| && values[j] == (Present(values)[i].0, Some(Present(values)[i].1))
  {
    if values != [] {
      var before, last := values[..|values| - 1], values[|values| - 1];
      assert forall i :: 0 <= i < |before| ==> before[i] == values[i];
      PresentIsGood(before);
      var kept, attrs := Present(before), Present(values);
      forall i | 0 <= i < |attrs|
        ensures exists j :: 0 <= j < |values| && values[j] == (attrs[i].0, Some(attrs[i].1))
        ensures i < |kept| ==> attrs[i].0 != last.0
      {
        if i < |kept| {
          var j :| 0 <= j < |before| && before[j] == (kept[i].0, Some(kept[i].1));
          assert values[j] == (attrs[i].0, Some(attrs[i].1));
        } else {
          assert values[|values| - 1] == (attrs[i].0, Some(attrs[i].1));
        }
      }
    }
  }

  // -------------------------------------------------------------------- spans

  function StartTag(tag: string): string {
    "<" + tag + ">"
  }

  function EndTag(tag: string): string {
    "</" + tag + ">"
  }

  function Enclosed(on: bool, tag: string, text: string): string {
    if on then StartTag(tag) + text + EndTag(tag) else text
  }

  function RenderColored(s: Span): string {
    var text := ReplaceLineFeeds(Escape(s.text));
    if s.textColor.Some? || s.backgroundColor.Some? then "<span" + RenderAttributes(Colors(s)) + ">" + text + "</span>"
    else text
  }

  /** The wrappers go on from the inside out: span, code, u, del, em, b, a. */
  function RenderEmphasized(s: Span): string {
    var coded := Enclosed(s.inlineCode, "code", RenderColored(s));
    var underlined := Enclosed(s.underline, "u", coded);
    var struck := Enclosed(s.strike, "del", underlined);
    var emphasized := Enclosed(s.emphasis, "em", struck);
    Enclosed(s.bold, "b", emphasized)
  }

  function RenderSpan(s: Span): string {
    if s.formula then Enclosed(true, "latex", ReplaceLineFeeds(Escape(s.text)))
    else if s.link.Some? then "<a" + AttributeText(("href", s.link.value)) + ">" + RenderEmphasized(s) + "</a>"
    else RenderEmphasized(s)
  }

  function Colors(s: Span): OptionalAttributes {
    [("text-color", Named(s.textColor)), ("background-color", Named(s.backgroundColor))]
  }

  function RenderRichText(spans: seq<Span>): string {
    if spans == [] then ""
    else RenderRichText(spans[..|spans| - 1]) + RenderSpan(spans[|spans| - 1])
  }

  function Wrapped(on: bool, tag: string, attrs: Attributes, body: Fragment): Fragment {
    if on then Element(tag, attrs, body) else body
  }

  function LinkAttributes(s: Span): Attributes {
    if s.link.Some? then [("href", s.link.value)] else []
  }

  function Colored(s: Span): Fragment {
    Wrapped(s.textColor.Some? || s.backgroundColor.Some?, "span", Present(Colors(s)), Lines(s.text))
  }

  function Emphasized(s: Span): Fragment {
    Wrapped(s.bold, "b", [],
      Wrapped(s.emphasis, "em", [],
        Wrapped(s.strike, "del", [],
          Wrapped(s.underline, "u", [],
            Wrapped(s.inlineCode, "code", [], Colored(s))))))
  }

  function SpanFragment(s: Span): Fragment {
    if s.formula then Element("latex", [], Lines(s.text))
    else Wrapped(s.link.Some?, "a", LinkAttributes(s), Emphasized(s))
  }

  function All(xs: seq<Fragment>): Fragment {
    if xs == [] then Nothing else Both(All(xs[..|xs| - 1]), xs[|xs| - 1])
  }

  function SpanFragments(spans: seq<Span>): (xs: seq<Fragment>)
    ensures |xs| == |spans| && forall i :: 0 <= i < |spans| ==> xs[i] == SpanFragment(spans[i])
  {
    seq(|spans|, i requires 0 <= i < |spans| => SpanFragment(spans[i]))
  }

  function RichFragment(spans: seq<Span>): Fragment {
    All(SpanFragments(spans))
  }

  lemma {:induction false} WrappedPrints(on: bool, tag: string, body: Fragment)
    ensures Print(Wrapped(on, tag, [], body)) == Enclosed(on, tag, Print(body))
  {
    assert AttributesText([]) == "" && "<" + tag + "" == "<" + tag;
    assert StartTag(tag) + Print(body) + EndTag(tag) == "<" + tag + ">" + Print(body) + "</" + tag + ">";
  }

  lemma {:induction false} ColoredPrints(s: Span)
    ensures Print(Colored(s)) == RenderColored(s)
  {
    AttributesPrinted(Colors(s));
    if s.textColor.Some? || s.backgroundColor.Some? {
      SpanTagPrints(Present(Colors(s)), Lines(s.text));
    }
  }

  lemma {:induction false} SpanTagPrints(attrs: Attributes, body: Fragment)
    ensures Print(Element("span", attrs, body)) == "<span" + AttributesText(attrs) + ">" + Print(body) + "</span>"
  {
    assert "<" + "span" == "<span";
    assert Print(body) + "</" + "span" + ">" == Print(body) + "</span>";
  }

  lemma {:induction false} EmphasizedPrints(s: Span)
    ensures Print(Emphasized(s)) == RenderEmphasized(s)
  {
    var coded := Wrapped(s.inlineCode, "code", [], Colored(s));
    var underlined := Wrapped(s.underline, "u", [], coded);
    var struck := Wrapped(s.strike, "del", [], underlined);
    var emphasized := Wrapped(s.emphasis, "em", [], struck);
    ColoredPrints(s);
    WrappedPrints(s.inlineCode, "code", Colored(s));
    WrappedPrints(s.underline, "u", coded);
    WrappedPrints(s.strike, "del", underlined);
    WrappedPrints(s.emphasis, "em", struck);
    WrappedPrints(s.bold, "b", emphasized);
  }

  lemma {:induction false} LinkPrints(link: string, body: Fragment)
    ensures Print(Element("a", [("href", link)], body)) == "<a" + AttributeText(("href", link)) + ">" + Print(body) + "</a>"
  {
    var attrs := [("href", link)];
    assert attrs[..0] == [];
    assert AttributesText(attrs) == AttributeText(attrs[0]);
    assert "<" + "a" == "<a";
    assert Print(body) + "</" + "a" + ">" == Print(body) + "</a>";
  }

  lemma {:induction false} SpanPrinted(s: Span)
    ensures RenderSpan(s) == Print(SpanFragment(s))
  {
    if s.formula {
      WrappedPrints(true, "latex", Lines(s.text));
    } else {
      EmphasizedPrints(s);
      if s.link.Some? {
        LinkPrints(s.link.value, Emphasized(s));
      }
    }
  }

  lemma {:induction false} RichTextPrinted(spans: seq<Span>)
    ensures RenderRichText(spans) == Print(RichFragment(spans))
  {
    if spans != [] {
      var before := spans[..|spans| - 1];
      RichTextPrinted(before);
      SpanPrinted(spans[|spans| - 1]);
      assert SpanFragments(spans)[..|spans| - 1] == SpanFragments(before);
    }
  }
}
