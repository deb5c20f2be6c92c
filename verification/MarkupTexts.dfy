/** The author's own words in a fragment, and that nothing else in its markup matters to a reader. */
module MarkupTexts {
  import opened Outcomes
  import opened Markup
  import opened MarkupPrinter
  import opened MarkupTheorems
  import opened RichText

  /** A text between tags, or the value of an attribute. */
  datatype Piece = Spoken(text: string) | Quoted(text: string)

  function ValuesOf(attrs: Attributes): set<Piece> {
    set i | 0 <= i < |attrs| :: Quoted(attrs[i].1)
  }

  function Pieces(x: Fragment): set<Piece> {
    match x
    case Nothing => {}
    case Both(a, b) => Pieces(a) + Pieces(b)
    case Words(text) => {Spoken(text)}
    case Lines(text) => {Spoken(text)}
    case Element(_, attrs, body) => ValuesOf(attrs) + Pieces(body)
    case Void(_, attrs) => ValuesOf(attrs)
  }

  predicate CleanPiece(p: Piece) {
    if p.Spoken? then CleanText(p.text) else CleanValue(p.text)
  }

  predicate CleanPieces(ps: set<Piece>) {
    forall p :: p in ps ==> CleanPiece(p)
  }

  ghost predicate LegalPieces(ps: set<Piece>) {
    forall p :: p in ps ==> AllLegal(p.text)
  }

  lemma PiecesSplit(ps: set<Piece>, qs: set<Piece>)
    ensures CleanPieces(ps + qs) <==> CleanPieces(ps) && CleanPieces(qs)
    ensures LegalPieces(ps + qs) <==> LegalPieces(ps) && LegalPieces(qs)
  {
    assert ps <= ps + qs && qs <= ps + qs;
  }

  lemma {:induction false} ValuesDecide(attrs: Attributes)
    ensures CleanAttributes(attrs) <==> CleanPieces(ValuesOf(attrs))
    ensures LegalAttributes(attrs) <==> LegalPieces(ValuesOf(attrs))
  {
    assert forall i :: 0 <= i < |attrs| ==> Quoted(attrs[i].1) in ValuesOf(attrs);
    assert forall i :: 0 <= i < |attrs| && CleanPiece(Quoted(attrs[i].1)) ==> CleanValue(attrs[i].1);
  }

  lemma {:induction false} PiecesDecide(x: Fragment)
    ensures CleanFragment(x) <==> CleanPieces(Pieces(x))
    ensures LegalFragment(x) <==> LegalPieces(Pieces(x))
  {
    match x
    case Nothing =>
    case Both(a, b) =>
      PiecesDecide(a);
      PiecesDecide(b);
      PiecesSplit(Pieces(a), Pieces(b));
    case Words(text) => assert Spoken(text) in Pieces(x);
    case Lines(text) => assert Spoken(text) in Pieces(x);
    case Element(_, attrs, body) =>
      ValuesDecide(attrs);
      PiecesDecide(body);
      PiecesSplit(ValuesOf(attrs), Pieces(body));
    case Void(_, attrs) => ValuesDecide(attrs);
  }

  // --------------------------------------------------------------- what is carried

  /** Made of name characters only, like the constants the compiler writes into attributes. */
  predicate PlainValue(v: string) {
    forall i :: 0 <= i < |v| ==> NameChar(v[i])
  }

  /** Anything but a plain attribute value, which no reader changes. */
  predicate Telling(p: Piece) {
    p.Spoken? || !PlainValue(p.text)
  }

  function Tellings(ps: set<Piece>): set<Piece> {
    set p | p in ps && Telling(p)
  }

  /** All that may matter in the fragment is in `ps`, and the other way round. */
  predicate Carries(x: Fragment, ps: set<Piece>) {
    Tellings(Pieces(x)) == Tellings(ps)
  }

  lemma {:induction false} TellingDecides(ps: set<Piece>)
    ensures CleanPieces(ps) <==> CleanPieces(Tellings(ps))
    ensures LegalPieces(ps) <==> LegalPieces(Tellings(ps))
  {
    forall p | p in ps && !Telling(p)
      ensures CleanPiece(p) && AllLegal(p.text)
    {
    }
  }

  lemma {:induction false} CarriedDecides(x: Fragment, ps: set<Piece>)
    requires Carries(x, ps)
    ensures CleanFragment(x) <==> CleanPieces(ps)
    ensures LegalFragment(x) <==> LegalPieces(ps)
  {
    PiecesDecide(x);
    TellingDecides(Pieces(x));
    TellingDecides(ps);
  }

  lemma TellingsSplit(ps: set<Piece>, qs: set<Piece>)
    ensures Tellings(ps + qs) == Tellings(ps) + Tellings(qs)
  {
  }

  lemma {:induction false} CarriesBoth(a: Fragment, ps: set<Piece>, b: Fragment, qs: set<Piece>)
    requires Carries(a, ps) && Carries(b, qs)
    ensures Carries(Both(a, b), ps + qs)
  {
    TellingsSplit(Pieces(a), Pieces(b));
    TellingsSplit(ps, qs);
  }

  lemma {:induction false} CarriesElement(tag: string, attrs: Attributes, own: set<Piece>, body: Fragment, ps: set<Piece>)
    requires Carries(body, ps) && Tellings(ValuesOf(attrs)) == Tellings(own)
    ensures Carries(Element(tag, attrs, body), own + ps)
  {
    TellingsSplit(ValuesOf(attrs), Pieces(body));
    TellingsSplit(own, ps);
  }

  lemma {:induction false} CarriesBare(tag: string, body: Fragment, ps: set<Piece>)
    requires Carries(body, ps)
    ensures Carries(Element(tag, [], body), ps)
  {
    CarriesElement(tag, [], {}, body, ps);
    assert {} + ps == ps;
  }

  lemma PlainTellsNothing(key: string, value: string)
    requires PlainValue(value)
    ensures Tellings(ValuesOf([(key, value)])) == {} == Tellings({})
  {
  }

  /** An element whose only attribute is plain. */
  lemma {:induction false} CarriesPlain(tag: string, key: string, value: string, body: Fragment, ps: set<Piece>)
    requires PlainValue(value) && Carries(body, ps)
    ensures Carries(Element(tag, [(key, value)], body), ps)
  {
    PlainTellsNothing(key, value);
    CarriesElement(tag, [(key, value)], {}, body, ps);
    assert {} + ps == ps;
  }

  /** The values that are set. */
  function Given(values: OptionalAttributes): set<Piece> {
    set i | 0 <= i < |values| && values[i].1.Some? :: Quoted(values[i].1.value)
  }

  lemma {:induction false} PresentValues(values: OptionalAttributes)
    ensures ValuesOf(Present(values)) == Given(values)
  {
    if values != [] {
      var before, last := values[..|values| - 1], values[|values| - 1];
      PresentValues(before);
      PresentMore(Present(before), last);
      GivenMore(before, last);
      assert before + [last] == values;
    }
  }

  lemma {:induction false} PresentMore(kept: Attributes, last: (string, Option<string>))
    ensures ValuesOf(kept + if last.1.Some? then [(last.0, last.1.value)] else [])
         == ValuesOf(kept) + Optional(last.1)
  {
    var attrs := kept + if last.1.Some? then [(last.0, last.1.value)] else [];
    assert forall i :: 0 <= i < |kept| ==> attrs[i] == kept[i];
    if last.1.Some? {
      assert attrs[|kept|].1 == last.1.value;
    }
    assert forall i :: 0 <= i < |kept| ==> Quoted(attrs[i].1) in ValuesOf(attrs);
  }

  lemma {:induction false} GivenMore(before: OptionalAttributes, last: (string, Option<string>))
    ensures Given(before + [last]) == Given(before) + Optional(last.1)
  {
    var values := before + [last];
    assert forall i :: 0 <= i < |before| ==> values[i] == before[i];
    assert values[|before|] == last;
    assert forall i :: 0 <= i < |before| && values[i].1.Some? ==> Quoted(values[i].1.value) in Given(values);
  }

  function Optional(v: Option<string>): set<Piece> {
    if v.Some? then {Quoted(v.value)} else {}
  }

  lemma ColorsArePlain(c: Color)
    ensures PlainValue(ColorName(c))
  {
  }

  // -------------------------------------------------------------------- rich text

  function SpanPieces(s: Span): set<Piece> {
    {Spoken(s.text)} + if s.formula then {} else Optional(s.link)
  }

  function RichPieces(spans: seq<Span>): set<Piece> {
    if spans == [] then {} else RichPieces(spans[..|spans| - 1]) + SpanPieces(spans[|spans| - 1])
  }

  lemma CarriesWrapped(on: bool, tag: string, body: Fragment, ps: set<Piece>)
    requires Carries(body, ps)
    ensures Carries(Wrapped(on, tag, [], body), ps)
  {
    CarriesBare(tag, body, ps);
  }

  lemma {:induction false} ColoredCarries(s: Span)
    ensures Carries(Colored(s), {Spoken(s.text)})
  {
    var words := {Spoken(s.text)};
    PresentValues(Colors(s));
    forall p | p in Given(Colors(s))
      ensures !Telling(p)
    {
      if s.textColor.Some? {
        ColorsArePlain(s.textColor.value);
      }
      if s.backgroundColor.Some? {
        ColorsArePlain(s.backgroundColor.value);
      }
    }
    assert Carries(Lines(s.text), words);
    CarriesElement("span", Present(Colors(s)), {}, Lines(s.text), words);
    assert {} + words == words;
  }

  lemma {:induction false} SpanCarries(s: Span)
    ensures Carries(SpanFragment(s), SpanPieces(s))
  {
    var words := {Spoken(s.text)};
    if s.formula {
      CarriesBare("latex", Lines(s.text), words);
    } else {
      var coded := Wrapped(s.inlineCode, "code", [], Colored(s));
      var underlined := Wrapped(s.underline, "u", [], coded);
      var struck := Wrapped(s.strike, "del", [], underlined);
      var emphasized := Wrapped(s.emphasis, "em", [], struck);
      ColoredCarries(s);
      CarriesWrapped(s.inlineCode, "code", Colored(s), words);
      CarriesWrapped(s.underline, "u", coded, words);
      CarriesWrapped(s.strike, "del", underlined, words);
      CarriesWrapped(s.emphasis, "em", struck, words);
      CarriesWrapped(s.bold, "b", emphasized, words);
      if s.link.Some? {
        var attrs := LinkAttributes(s);
        assert attrs[0].1 == s.link.value && ValuesOf(attrs) == Optional(s.link);
        CarriesElement("a", attrs, Optional(s.link), Emphasized(s), words);
        assert Optional(s.link) + words == SpanPieces(s);
      }
    }
  }

  lemma {:induction false} RichTextCarries(spans: seq<Span>)
    ensures Carries(RichFragment(spans), RichPieces(spans))
  {
    if spans != [] {
      var before, last := spans[..|spans| - 1], spans[|spans| - 1];
      RichTextCarries(before);
      SpanCarries(last);
      assert SpanFragments(spans)[..|before|] == SpanFragments(before);
      CarriesBoth(RichFragment(before), RichPieces(before), SpanFragment(last), SpanPieces(last));
    }
  }

  /** The span has nothing that XML excludes or rewrites. */
  predicate CleanSpan(s: Span) {
    CleanText(s.text) && (s.link.Some? && !s.formula ==> CleanValue(s.link.value))
  }

  predicate CleanRich(spans: seq<Span>) {
    forall i :: 0 <= i < |spans| ==> CleanSpan(spans[i])
  }

  lemma {:induction false} RichTextDecides(spans: seq<Span>)
    ensures CleanPieces(RichPieces(spans)) <==> CleanRich(spans)
  {
    if spans != [] {
      var before, last := spans[..|spans| - 1], spans[|spans| - 1];
      assert forall i :: 0 <= i < |before| ==> before[i] == spans[i];
      RichTextDecides(before);
      SpanDecides(last);
      PiecesSplit(RichPieces(before), SpanPieces(last));
    }
  }

  lemma {:induction false} SpanDecides(s: Span)
    ensures CleanPieces(SpanPieces(s)) <==> CleanSpan(s)
  {
    assert Spoken(s.text) in SpanPieces(s);
    if s.link.Some? && !s.formula {
      assert Quoted(s.link.value) in SpanPieces(s);
    }
  }
}
