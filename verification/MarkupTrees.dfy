/** The tree of elements behind a stream of tokens. */
module MarkupTrees {
  import opened Outcomes
  import opened Markup
  import opened MarkupPrinter
  import opened MarkupTheorems
  import opened RichText
  import opened RichTextMeaning

  /** Characters and elements in order, each followed by what comes after it on its level. */
  datatype Forest =
    | Bare
    | Leaf(c: char, rest: Forest)
    | Node(tag: string, attrs: Attributes, kids: Forest, rest: Forest)

  /** What the tokens hold up to an end tag that closes none of their elements, and what is left from there on. */
  function Grow(ts: seq<Token>): (r: (Forest, seq<Token>))
    ensures |r.1| <= |ts|
    decreases |ts|
  {
    if ts == [] then (Bare, ts)
    else match ts[0]
      case Close(_) => (Bare, ts)
      case Char(c) =>
        var after := Grow(ts[1..]);
        (Leaf(c, after.0), after.1)
      case Open(tag, attrs) =>
        var inner := Grow(ts[1..]);
        var after := Grow(if inner.1 == [] then [] else inner.1[1..]);
        (Node(tag, attrs, inner.0, after.0), after.1)
  }

  function Leaves(text: string, tail: Forest): Forest {
    if text == "" then tail else Leaf(text[0], Leaves(text[1..], tail))
  }

  function LineLeaves(text: string, tail: Forest): Forest {
    if text == "" then tail
    else
      var after := LineLeaves(text[1..], tail);
      if text[0] == '\n' then Node("br", [], Bare, after) else Leaf(text[0], after)
  }

  /** The tree of a fragment in front of `tail`. */
  function Plant(x: Fragment, tail: Forest): Forest {
    match x
    case Nothing => tail
    case Both(a, b) => Plant(a, Plant(b, tail))
    case Words(text) => Leaves(text, tail)
    case Lines(text) => LineLeaves(text, tail)
    case Element(tag, attrs, body) => Node(tag, attrs, Plant(body, Bare), tail)
    case Void(tag, attrs) => Node(tag, attrs, Bare, tail)
  }

  lemma {:induction false} CharGrows(c: char, ts: seq<Token>)
    ensures Grow([Char(c)] + ts) == (Leaf(c, Grow(ts).0), Grow(ts).1)
  {
    assert ([Char(c)] + ts)[1..] == ts;
  }

  lemma {:induction false} CharsGrow(text: string, ts: seq<Token>)
    ensures Grow(Chars(text) + ts) == (Leaves(text, Grow(ts).0), Grow(ts).1)
  {
    if text == "" {
      assert Chars(text) + ts == ts;
    } else {
      var after := Chars(text[1..]) + ts;
      CharsGrow(text[1..], ts);
      CharGrows(text[0], after);
      assert Chars(text) + ts == [Char(text[0])] + after;
    }
  }

  /** An element whose content is `inner`. */
  lemma {:induction false} ElementGrows(tag: string, attrs: Attributes, inner: seq<Token>, kids: Forest, ts: seq<Token>)
    requires Grow(inner + ([Close(tag)] + ts)) == (kids, [Close(tag)] + ts)
    ensures Grow([Open(tag, attrs)] + inner + [Close(tag)] + ts) == (Node(tag, attrs, kids, Grow(ts).0), Grow(ts).1)
  {
    var all := [Open(tag, attrs)] + inner + [Close(tag)] + ts;
    assert all[0] == Open(tag, attrs) && all[1..] == inner + ([Close(tag)] + ts);
    assert ([Close(tag)] + ts)[1..] == ts;
  }

  lemma {:induction false} VoidGrows(tag: string, attrs: Attributes, ts: seq<Token>)
    ensures Grow([Open(tag, attrs), Close(tag)] + ts) == (Node(tag, attrs, Bare, Grow(ts).0), Grow(ts).1)
  {
    assert [] + ([Close(tag)] + ts) == [Close(tag)] + ts;
    ElementGrows(tag, attrs, [], Bare, ts);
    assert [Open(tag, attrs)] + [] + [Close(tag)] + ts == [Open(tag, attrs), Close(tag)] + ts;
  }

  lemma {:induction false} LinesGrow(text: string, ts: seq<Token>)
    ensures Grow(LineTokens(text, false) + ts) == (LineLeaves(text, Grow(ts).0), Grow(ts).1)
  {
    if text == "" {
      assert LineTokens(text, false) + ts == ts;
    } else {
      var after := LineTokens(text[1..], false) + ts;
      LinesGrow(text[1..], ts);
      if text[0] == '\n' {
        VoidGrows("br", [], after);
        assert LineTokens(text, false) + ts == [Open("br", []), Close("br")] + after;
      } else {
        CharGrows(text[0], after);
        assert LineTokens(text, false) + ts == [Char(text[0])] + after;
      }
    }
  }

  /** The tree of a fragment's tokens is the fragment's tree, whatever follows. */
  lemma {:induction false} TokensGrow(x: Fragment, ts: seq<Token>)
    ensures Grow(Tokens(x, false) + ts) == (Plant(x, Grow(ts).0), Grow(ts).1)
    decreases x
  {
    match x
    case Nothing => assert Tokens(x, false) + ts == ts;
    case Both(a, b) =>
      TokensGrow(b, ts);
      TokensGrow(a, Tokens(b, false) + ts);
      assert Tokens(x, false) + ts == Tokens(a, false) + (Tokens(b, false) + ts);
    case Words(text) => CharsGrow(text, ts);
    case Lines(text) => LinesGrow(text, ts);
    case Element(tag, attrs, body) =>
      AttributesAsWritten(attrs);
      TokensGrow(body, [Close(tag)] + ts);
      ElementGrows(tag, attrs, Tokens(body, false), Plant(body, Bare), ts);
    case Void(tag, attrs) =>
      AttributesAsWritten(attrs);
      VoidGrows(tag, attrs, ts);
  }

  // ------------------------------------------------------------------- looks

  /** The styled characters of a tree. */
  function TreeLook(style: Style, f: Forest): Styled
    decreases f
  {
    match f
    case Bare => []
    case Leaf(c, rest) => [(c, style)] + TreeLook(style, rest)
    case Node(tag, attrs, kids, rest) =>
      (if tag == "br" then [('\n', style)] else []) + TreeLook(Restyled(style, tag, attrs), kids) + TreeLook(style, rest)
  }

  lemma {:induction false} LeavesLook(style: Style, text: string, tail: Forest)
    ensures TreeLook(style, Leaves(text, tail)) == Evenly(text, style) + TreeLook(style, tail)
    ensures TreeLook(style, LineLeaves(text, tail)) == Evenly(text, style) + TreeLook(style, tail)
  {
    if text != "" {
      LeavesLook(style, text[1..], tail);
      StyledAssociative([(text[0], style)], Evenly(text[1..], style), TreeLook(style, tail));
      assert [(text[0], style)] + [] == [(text[0], style)];
    }
  }

  lemma {:induction false} PlantedLook(style: Style, x: Fragment, tail: Forest)
    ensures TreeLook(style, Plant(x, tail)) == Look(style, x) + TreeLook(style, tail)
    decreases x
  {
    match x
    case Nothing =>
    case Both(a, b) =>
      PlantedLook(style, a, Plant(b, tail));
      PlantedLook(style, b, tail);
      StyledAssociative(Look(style, a), Look(style, b), TreeLook(style, tail));
    case Words(text) => LeavesLook(style, text, tail);
    case Lines(text) => LeavesLook(style, text, tail);
    case Element(tag, attrs, body) =>
      var inner := Restyled(style, tag, attrs);
      PlantedLook(inner, body, Bare);
      assert Look(inner, body) + [] == Look(inner, body);
    case Void(_, _) =>
  }
}
