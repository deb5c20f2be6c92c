/** Whole documents: every block, the preflight, and what compilation guarantees about its output. */
module DocumentPublisher {
  import opened Outcomes
  import opened Markup
  import opened MarkupPrinter
  import opened MarkupTheorems
  import opened RichText
  import opened RichTextMeaning
  import opened DocumentCompiler
  import opened DocumentTexts
  import opened MarkupTexts

  // ------------------------------------------------------------------- blocks

  function PlainTag(tag: string, key: string, value: string): string {
    "<" + tag + " " + key + "=\"" + value + "\"" + ">"
  }

  function AttributedTag(tag: string, values: OptionalAttributes): string {
    "<" + tag + RenderAttributes(values) + ">"
  }

  lemma {:induction false} PlainPrinted(tag: string, key: string, value: string, body: Fragment)
    requires forall i :: 0 <= i < |value| ==> NameChar(value[i])
    ensures Print(Element(tag, [(key, value)], body)) == PlainTag(tag, key, value) + Print(body) + EndTag(tag)
  {
    PlainAttributePrinted(tag, key, value);
    FourParts(PlainTag(tag, key, value) + Print(body), "</", tag, ">");
  }

  lemma {:induction false} AttributedPrinted(tag: string, values: OptionalAttributes, body: Fragment)
    ensures Print(Element(tag, Present(values), body)) == AttributedTag(tag, values) + Print(body) + EndTag(tag)
  {
    AttributesPrinted(values);
    FourParts(AttributedTag(tag, values) + Print(body), "</", tag, ">");
  }

  function ItemsText(items: seq<seq<Span>>): string {
    if items == [] then ""
    else ItemsText(items[..|items| - 1]) + Enclosed(true, "li", RenderRichText(items[|items| - 1]))
  }

  lemma {:induction false} ItemsPrinted(items: seq<seq<Span>>)
    ensures ItemsText(items) == Print(All(ItemFragments(items)))
  {
    if items != [] {
      var before, last := items[..|items| - 1], items[|items| - 1];
      ItemsPrinted(before);
      RichTextPrinted(last);
      EnclosedPrinted("li", RichFragment(last));
      assert ItemFragments(items)[..|before|] == ItemFragments(before);
    }
  }

  /** The blocks whose text is rich text or a list of it. */
  function RenderTextBlock(b: Block): string
    requires b.Heading? || b.Paragraph? || b.ItemList? || b.Checkbox? || b.Quote? || b.Callout?
  {
    match b
    case Heading(level, title, align) =>
      PlainTag("h" + Decimal(level), "align", AlignName(align)) + RenderRichText(title) + EndTag("h" + Decimal(level))
    case Paragraph(content, align) => PlainTag("p", "align", AlignName(align)) + RenderRichText(content) + EndTag("p")
    case ItemList(ordered, items) => Enclosed(true, if ordered then "ol" else "ul", ItemsText(items))
    case Checkbox(task, done) =>
      PlainTag("checkbox", "done", if done then "true" else "false") + RenderRichText(task) + EndTag("checkbox")
    case Quote(quoted) => Enclosed(true, "blockquote", Enclosed(true, "p", RenderRichText(quoted)))
    case Callout(note, _, _, _, _) =>
      AttributedTag("callout", CalloutAttributes(b)) + Enclosed(true, "p", RenderRichText(note)) + EndTag("callout")
  }

  /** The blocks that carry code, a picture or a reference. */
  function RenderObjectBlock(b: Block): string
    requires b.Code? || b.Divider? || b.Image? || b.Bookmark? || b.Whiteboard? || b.Sheet?
  {
    match b
    case Code(code, language, caption) =>
      AttributedTag("pre", [("lang", Some(language)), ("caption", caption)]) + Enclosed(true, "code", Escape(code)) + EndTag("pre")
    case Divider => "<hr/>"
    case Image(_, _, _, _, _) => "<img" + RenderAttributes(ImageAttributes(b)) + "/>"
    case Bookmark(name, href) => AttributedTag("bookmark", [("name", Some(name)), ("href", Some(href))]) + "" + EndTag("bookmark")
    case Whiteboard(format, source) => PlainTag("whiteboard", "type", FormatName(format)) + Escape(source) + EndTag("whiteboard")
    case Sheet(None) => PlainTag("sheet", "type", "blank") + "" + EndTag("sheet")
    case Sheet(Some(pair)) => AttributedTag("sheet", [("token", Some(pair.0)), ("sheet-id", Some(pair.1))]) + "" + EndTag("sheet")
  }

  lemma {:induction false} PlainRichPrinted(tag: string, key: string, value: string, content: seq<Span>)
    requires forall i :: 0 <= i < |value| ==> NameChar(value[i])
    ensures PlainTag(tag, key, value) + RenderRichText(content) + EndTag(tag)
         == Print(Element(tag, [(key, value)], RichFragment(content)))
  {
    RichTextPrinted(content);
    PlainPrinted(tag, key, value, RichFragment(content));
  }

  lemma {:induction false} AlignedPrinted(b: Block)
    requires b.Heading? || b.Paragraph?
    ensures RenderTextBlock(b) == Print(BlockFragment(b))
  {
    var name := AlignName(b.align);
    if b.Heading? {
      PlainRichPrinted("h" + Decimal(b.level), "align", name, b.title);
    } else {
      PlainRichPrinted("p", "align", name, b.content);
    }
  }

  lemma {:induction false} CheckboxPrinted(b: Block)
    requires b.Checkbox?
    ensures RenderTextBlock(b) == Print(BlockFragment(b))
  {
    var done := if b.done then "true" else "false";
    PlainRichPrinted("checkbox", "done", done, b.task);
  }

  lemma {:induction false} ListPrinted(b: Block)
    requires b.ItemList?
    ensures RenderTextBlock(b) == Print(BlockFragment(b))
  {
    ItemsPrinted(b.items);
    EnclosedPrinted(if b.ordered then "ol" else "ul", All(ItemFragments(b.items)));
  }

  lemma {:induction false} QuotePrinted(b: Block)
    requires b.Quote?
    ensures RenderTextBlock(b) == Print(BlockFragment(b))
  {
    RichTextPrinted(b.quoted);
    EnclosedPrinted("p", RichFragment(b.quoted));
    EnclosedPrinted("blockquote", Element("p", [], RichFragment(b.quoted)));
  }

  lemma {:induction false} CalloutPrinted(b: Block)
    requires b.Callout?
    ensures RenderTextBlock(b) == Print(BlockFragment(b))
  {
    RichTextPrinted(b.note);
    EnclosedPrinted("p", RichFragment(b.note));
    AttributedPrinted("callout", CalloutAttributes(b), Element("p", [], RichFragment(b.note)));
  }

  lemma {:induction false} TextBlockPrinted(b: Block)
    requires b.Heading? || b.Paragraph? || b.ItemList? || b.Checkbox? || b.Quote? || b.Callout?
    ensures RenderTextBlock(b) == Print(BlockFragment(b))
  {
    if b.Heading? || b.Paragraph? {
      AlignedPrinted(b);
    } else if b.Checkbox? {
      CheckboxPrinted(b);
    } else if b.ItemList? {
      ListPrinted(b);
    } else if b.Quote? {
      QuotePrinted(b);
    } else {
      CalloutPrinted(b);
    }
  }

  lemma {:induction false} CodePrinted(b: Block)
    requires b.Code?
    ensures RenderObjectBlock(b) == Print(BlockFragment(b))
  {
    EnclosedPrinted("code", Words(b.code));
    AttributedPrinted("pre", [("lang", Some(b.language)), ("caption", b.caption)], Element("code", [], Words(b.code)));
  }

  lemma {:induction false} PicturePrinted(b: Block)
    requires b.Divider? || b.Image?
    ensures RenderObjectBlock(b) == Print(BlockFragment(b))
  {
    match b
    case Divider => assert AttributesText([]) == "" && "<" + "hr" + "" + "/>" == "<hr/>";
    case Image(_, _, _, _, _) =>
      AttributesPrinted(ImageAttributes(b));
      assert "<" + "img" == "<img";
  }

  lemma {:induction false} ReferencePrinted(b: Block)
    requires b.Bookmark? || b.Whiteboard? || b.Sheet?
    ensures RenderObjectBlock(b) == Print(BlockFragment(b))
  {
    match b
    case Bookmark(name, href) => AttributedPrinted("bookmark", [("name", Some(name)), ("href", Some(href))], Nothing);
    case Whiteboard(format, source) => PlainPrinted("whiteboard", "type", FormatName(format), Words(source));
    case Sheet(None) => PlainPrinted("sheet", "type", "blank", Nothing);
    case Sheet(Some(pair)) => AttributedPrinted("sheet", [("token", Some(pair.0)), ("sheet-id", Some(pair.1))], Nothing);
  }

  lemma {:induction false} ObjectBlockPrinted(b: Block)
    requires b.Code? || b.Divider? || b.Image? || b.Bookmark? || b.Whiteboard? || b.Sheet?
    ensures RenderObjectBlock(b) == Print(BlockFragment(b))
  {
    if b.Code? {
      CodePrinted(b);
    } else if b.Divider? || b.Image? {
      PicturePrinted(b);
    } else {
      ReferencePrinted(b);
    }
  }

  method RenderBlock(b: Block) returns (text: string)
    ensures text == Print(BlockFragment(b))
  {
    match b
    case Grid(table) => text := RenderTable(table);
    case Heading(_, _, _) => TextBlockPrinted(b); text := RenderTextBlock(b);
    case Paragraph(_, _) => TextBlockPrinted(b); text := RenderTextBlock(b);
    case ItemList(_, _) => TextBlockPrinted(b); text := RenderTextBlock(b);
    case Checkbox(_, _) => TextBlockPrinted(b); text := RenderTextBlock(b);
    case Quote(_) => TextBlockPrinted(b); text := RenderTextBlock(b);
    case Callout(_, _, _, _, _) => TextBlockPrinted(b); text := RenderTextBlock(b);
    case _ => ObjectBlockPrinted(b); text := RenderObjectBlock(b);
  }

  // ------------------------------------------------------- shape of fragments

  /** A single element: its text starts and ends with a tag. */
  predicate OneElement(x: Fragment) {
    x.Element? || x.Void?
  }

  lemma {:induction false} ElementEnds(x: Fragment)
    requires OneElement(x)
    ensures Print(x) != "" && Print(x)[0] == '<' && Print(x)[|Print(x)| - 1] == '>'
  {
  }

  lemma {:induction false} ElementsEmbed(xs: seq<Fragment>)
    requires forall i :: 0 <= i < |xs| ==> OneElement(xs[i]) && Proper(xs[i])
    ensures Embeddable(All(xs))
  {
    forall i | 0 <= i < |xs|
      ensures Embeddable(xs[i])
    {
      ElementEnds(xs[i]);
    }
    AllEmbed(xs);
  }

  lemma {:induction false} FourKeysAreGood(
    a: (string, Option<string>), b: (string, Option<string>), c: (string, Option<string>), d: (string, Option<string>))
    requires IsName(a.0) && IsName(b.0) && IsName(c.0) && IsName(d.0)
    requires a.0 != b.0 && a.0 != c.0 && a.0 != d.0 && b.0 != c.0 && b.0 != d.0 && c.0 != d.0
    ensures GoodKeys([a, b, c, d])
  {
  }

  lemma CellKeyNames()
    ensures IsName("background-color") && IsName("vertical-align") && IsName("colspan") && IsName("rowspan")
  {
  }

  lemma {:induction false} CellKeysAreGood(c: Cell)
    ensures GoodKeys(CellAttributes(c))
  {
    var values := CellAttributes(c);
    CellKeyNames();
    assert |values[0].0| == 16 && |values[1].0| == 14 && |values[2].0| == 7 && |values[3].0| == 7;
    assert values[2].0[0] != values[3].0[0];
    FourKeysAreGood(values[0], values[1], values[2], values[3]);
  }

  lemma {:induction false} CellIsProper(c: Cell, tag: string)
    requires IsName(tag)
    ensures Proper(CellFragment(c, tag))
  {
    CellKeysAreGood(c);
    PresentIsGood(CellAttributes(c));
    RichTextEmbeds(c.content);
  }

  lemma {:induction false} CellsEmbed(cells: seq<Cell>, tag: string)
    requires IsName(tag)
    ensures Embeddable(All(CellFragments(cells, tag)))
  {
    forall i | 0 <= i < |cells|
      ensures Proper(CellFragments(cells, tag)[i])
    {
      CellIsProper(cells[i], tag);
    }
    ElementsEmbed(CellFragments(cells, tag));
  }

  /** What follows such a fragment cannot complete a line end with it. */
  ghost predicate TagEnded(x: Fragment) {
    Print(x) == "" || Print(x)[|Print(x)| - 1] == '>'
  }

  lemma {:induction false} BothTagged(a: Fragment, b: Fragment)
    requires Proper(a) && Proper(b) && TagEnded(a)
    ensures Proper(Both(a, b)) && (TagEnded(b) ==> TagEnded(Both(a, b)))
  {
    var p, q := Print(a), Print(b);
    assert Print(Both(a, b)) == p + q && Joins(p, q);
    if q == "" {
      assert p + q == p;
    } else {
      assert (p + q)[|p + q| - 1] == q[|q| - 1];
    }
  }

  lemma {:induction false} ElementTagged(x: Fragment)
    requires OneElement(x)
    ensures TagEnded(x)
  {
    ElementEnds(x);
  }

  lemma {:induction false} ColumnIsProper(width: int)
    ensures Proper(Void("col", [("width", Decimal(width))]))
  {
  }

  lemma {:induction false} ColumnsAreProper(widths: seq<int>)
    ensures Proper(Columns(widths)) && TagEnded(Columns(widths))
  {
    forall i | 0 <= i < |widths|
      ensures Proper(ColumnFragments(widths)[i])
    {
      ColumnIsProper(widths[i]);
    }
    ElementsEmbed(ColumnFragments(widths));
    if widths != [] {
      ElementTagged(Columns(widths));
    }
  }

  lemma {:induction false} HeaderIsProper(headers: seq<Cell>)
    ensures Proper(Header(headers)) && TagEnded(Header(headers))
  {
    if headers != [] {
      var cells := All(CellFragments(headers, "th"));
      CellsEmbed(headers, "th");
      ElementIsProper("tr", [], cells);
      ElementIsProper("thead", [], Element("tr", [], cells));
      ElementTagged(Header(headers));
    }
  }

  lemma {:induction false} RowsEmbed(rows: seq<seq<Cell>>)
    ensures Embeddable(All(RowFragments(rows)))
  {
    forall i | 0 <= i < |rows|
      ensures Proper(RowFragments(rows)[i])
    {
      CellsEmbed(rows[i], "td");
    }
    ElementsEmbed(RowFragments(rows));
  }

  lemma {:induction false} ThreePartsProper(tag: string, a: Fragment, b: Fragment, c: Fragment)
    requires IsName(tag) && Proper(a) && Proper(b) && Proper(c) && TagEnded(a) && TagEnded(b)
    ensures Proper(Element(tag, [], Both(Both(a, b), c)))
  {
    BothTagged(a, b);
    BothTagged(Both(a, b), c);
    ElementIsProper(tag, [], Both(Both(a, b), c));
  }

  lemma {:induction false} TableIsProper(t: Table)
    ensures Proper(TableFragment(t))
  {
    ColumnsAreProper(t.widths);
    HeaderIsProper(t.headers);
    RowsEmbed(t.rows);
    ElementIsProper("tbody", [], All(RowFragments(t.rows)));
    ThreePartsProper("table", Columns(t.widths), Header(t.headers), Element("tbody", [], All(RowFragments(t.rows))));
  }

  lemma {:induction false} ElementIsProper(tag: string, attrs: Attributes, body: Fragment)
    requires IsName(tag) && GoodAttributes(attrs) && Proper(body)
    ensures Proper(Element(tag, attrs, body))
  {
  }

  lemma {:induction false} CalloutKeysAreGood(b: Block)
    requires b.Callout?
    ensures GoodKeys(CalloutAttributes(b))
  {
  }

  lemma {:induction false} ImageKeysAreGood(b: Block)
    requires b.Image?
    ensures GoodKeys(ImageAttributes(b))
  {
  }

  lemma {:induction false} PairIsGood(x: (string, Option<string>), y: (string, Option<string>))
    requires IsName(x.0) && IsName(y.0) && x.0 != y.0
    ensures GoodAttributes(Present([x, y]))
  {
    PresentIsGood([x, y]);
  }

  lemma {:induction false} ItemsEmbed(items: seq<seq<Span>>)
    ensures Embeddable(All(ItemFragments(items)))
  {
    forall i | 0 <= i < |items|
      ensures Proper(ItemFragments(items)[i])
    {
      RichTextEmbeds(items[i]);
    }
    ElementsEmbed(ItemFragments(items));
  }

  /** An element with rich text in it, and at most one attribute. */
  lemma {:induction false} RichElementIsProper(tag: string, attrs: Attributes, content: seq<Span>)
    requires IsName(tag) && GoodAttributes(attrs)
    ensures Proper(Element(tag, attrs, RichFragment(content)))
  {
    RichTextEmbeds(content);
  }

  lemma {:induction false} TextBlockIsProper(b: Block)
    requires b.Heading? || b.Paragraph? || b.ItemList? || b.Checkbox?
    ensures OneElement(BlockFragment(b)) && Proper(BlockFragment(b))
  {
    match b
    case Heading(level, title, align) => RichElementIsProper("h" + Decimal(level), [("align", AlignName(align))], title);
    case Paragraph(content, align) => RichElementIsProper("p", [("align", AlignName(align))], content);
    case ItemList(ordered, items) =>
      ItemsEmbed(items);
      ElementIsProper(if ordered then "ol" else "ul", [], All(ItemFragments(items)));
    case Checkbox(task, done) => RichElementIsProper("checkbox", [("done", if done then "true" else "false")], task);
  }

  lemma {:induction false} NoteIsProper(b: Block)
    requires b.Quote? || b.Callout?
    ensures OneElement(BlockFragment(b)) && Proper(BlockFragment(b))
  {
    match b
    case Quote(quoted) =>
      RichElementIsProper("p", [], quoted);
      ElementIsProper("blockquote", [], Element("p", [], RichFragment(quoted)));
    case Callout(note, _, _, _, _) =>
      CalloutKeysAreGood(b);
      PresentIsGood(CalloutAttributes(b));
      RichElementIsProper("p", [], note);
      ElementIsProper("callout", Present(CalloutAttributes(b)), Element("p", [], RichFragment(note)));
  }

  lemma {:induction false} PairElementIsProper(
    tag: string, x: (string, Option<string>), y: (string, Option<string>), body: Fragment)
    requires IsName(tag) && IsName(x.0) && IsName(y.0) && x.0 != y.0 && Proper(body)
    ensures Proper(Element(tag, Present([x, y]), body))
  {
    PairIsGood(x, y);
  }

  lemma {:induction false} ImageIsProper(b: Block)
    requires b.Image?
    ensures Proper(Void("img", Present(ImageAttributes(b))))
  {
    ImageKeysAreGood(b);
    PresentIsGood(ImageAttributes(b));
  }

  lemma {:induction false} CodeIsProper(b: Block)
    requires b.Code?
    ensures OneElement(BlockFragment(b)) && Proper(BlockFragment(b))
  {
    ElementIsProper("code", [], Words(b.code));
    PairElementIsProper("pre", ("lang", Some(b.language)), ("caption", b.caption), Element("code", [], Words(b.code)));
  }

  lemma {:induction false} ReferenceIsProper(b: Block)
    requires b.Bookmark? || b.Whiteboard? || b.Sheet?
    ensures OneElement(BlockFragment(b)) && Proper(BlockFragment(b))
  {
    match b
    case Bookmark(name, href) => PairElementIsProper("bookmark", ("name", Some(name)), ("href", Some(href)), Nothing);
    case Whiteboard(format, source) => ElementIsProper("whiteboard", [("type", FormatName(format))], Words(source));
    case Sheet(None) => ElementIsProper("sheet", [("type", "blank")], Nothing);
    case Sheet(Some(pair)) => PairElementIsProper("sheet", ("token", Some(pair.0)), ("sheet-id", Some(pair.1)), Nothing);
  }

  lemma {:induction false} BlockIsProper(b: Block)
    ensures OneElement(BlockFragment(b)) && Proper(BlockFragment(b))
  {
    match b
    case Grid(table) => TableIsProper(table);
    case Quote(_) => NoteIsProper(b);
    case Callout(_, _, _, _, _) => NoteIsProper(b);
    case Code(_, _, _) => CodeIsProper(b);
    case Divider =>
    case Image(_, _, _, _, _) => ImageIsProper(b);
    case Bookmark(_, _) => ReferenceIsProper(b);
    case Whiteboard(_, _) => ReferenceIsProper(b);
    case Sheet(_) => ReferenceIsProper(b);
    case _ => TextBlockIsProper(b);
  }

  lemma {:induction false} LineBreakPrints()
    ensures Print(Words("\n")) == "\n"
  {
    assert "\n"[1..] == "";
  }

  lemma {:induction false} BlockLinesProper(blocks: seq<Block>)
    ensures Proper(BlockLines(blocks)) && TagEnded(BlockLines(blocks))
  {
    if blocks != [] {
      var before, block := BlockLines(blocks[..|blocks| - 1]), BlockFragment(blocks[|blocks| - 1]);
      BlockLinesProper(blocks[..|blocks| - 1]);
      BlockIsProper(blocks[|blocks| - 1]);
      ElementTagged(block);
      LineBreakPrints();
      assert Proper(Both(Words("\n"), block)) && TagEnded(Both(Words("\n"), block));
      BothTagged(before, Both(Words("\n"), block));
    }
  }

  lemma {:induction false} DocumentIsProper(d: Document)
    ensures Proper(DocumentFragment(d))
  {
    BlockLinesProper(d.blocks);
    ElementTagged(Element("title", [], Words(d.title)));
    BothTagged(Element("title", [], Words(d.title)), BlockLines(d.blocks));
  }

  lemma {:induction false} AllUse(xs: seq<Fragment>, tags: set<string>)
    requires forall i :: 0 <= i < |xs| ==> Uses(xs[i], tags)
    ensures Uses(All(xs), tags)
  {
    if xs != [] {
      AllUse(xs[..|xs| - 1], tags);
    }
  }

  lemma WrappedUses(on: bool, tag: string, attrs: Attributes, body: Fragment, tags: set<string>)
    requires Uses(body, tags) && tag in tags
    ensures Uses(Wrapped(on, tag, attrs, body), tags)
  {
  }

  lemma {:induction false} SpanUses(s: Span)
    ensures Uses(SpanFragment(s), SUPPORTED)
  {
    if !s.formula {
      var coded := Wrapped(s.inlineCode, "code", [], Colored(s));
      var underlined := Wrapped(s.underline, "u", [], coded);
      var struck := Wrapped(s.strike, "del", [], underlined);
      var emphasized := Wrapped(s.emphasis, "em", [], struck);
      WrappedUses(s.inlineCode, "code", [], Colored(s), SUPPORTED);
      WrappedUses(s.underline, "u", [], coded, SUPPORTED);
      WrappedUses(s.strike, "del", [], underlined, SUPPORTED);
      WrappedUses(s.emphasis, "em", [], struck, SUPPORTED);
      WrappedUses(s.bold, "b", [], emphasized, SUPPORTED);
    }
  }

  lemma {:induction false} RichTextUses(spans: seq<Span>)
    ensures Uses(RichFragment(spans), SUPPORTED)
  {
    forall i | 0 <= i < |spans|
      ensures Uses(SpanFragments(spans)[i], SUPPORTED)
    {
      SpanUses(spans[i]);
    }
    AllUse(SpanFragments(spans), SUPPORTED);
  }

  lemma {:induction false} CellsUse(cells: seq<Cell>, tag: string)
    requires tag in SUPPORTED
    ensures Uses(All(CellFragments(cells, tag)), SUPPORTED)
  {
    forall i | 0 <= i < |cells|
      ensures Uses(CellFragments(cells, tag)[i], SUPPORTED)
    {
      RichTextUses(cells[i].content);
    }
    AllUse(CellFragments(cells, tag), SUPPORTED);
  }

  lemma {:induction false} TableUses(t: Table)
    ensures Uses(TableFragment(t), SUPPORTED)
  {
    var rows := RowFragments(t.rows);
    forall i | 0 <= i < |rows|
      ensures Uses(rows[i], SUPPORTED)
    {
      CellsUse(t.rows[i], "td");
    }
    AllUse(rows, SUPPORTED);
    AllUse(ColumnFragments(t.widths), SUPPORTED);
    CellsUse(t.headers, "th");
    var columns, header := Columns(t.widths), Header(t.headers);
    assert Uses(columns, SUPPORTED) && Uses(header, SUPPORTED);
    assert Uses(Both(columns, header), SUPPORTED) && Uses(Element("tbody", [], All(rows)), SUPPORTED);
  }

  lemma {:induction false} HeadingTagSupported(level: nat)
    requires 1 <= level <= 9
    ensures "h" + Decimal(level) in SUPPORTED
  {
    var tag := "h" + Decimal(level);
    assert Decimal(level) == [Digit(level)];
    assert tag == ["h0", "h1", "h2", "h3", "h4", "h5", "h6", "h7", "h8", "h9"][level];
  }

  lemma {:induction false} BlockUses(b: Block)
    requires ValidBlock(b)
    ensures Uses(BlockFragment(b), SUPPORTED)
  {
    match b
    case Heading(level, title, _) =>
      HeadingTagSupported(level);
      RichTextUses(title);
    case Paragraph(content, _) => RichTextUses(content);
    case ItemList(_, items) =>
      forall i | 0 <= i < |items|
        ensures Uses(ItemFragments(items)[i], SUPPORTED)
      {
        RichTextUses(items[i]);
      }
      AllUse(ItemFragments(items), SUPPORTED);
    case Checkbox(task, _) => RichTextUses(task);
    case Quote(quoted) => RichTextUses(quoted);
    case Callout(note, _, _, _, _) => RichTextUses(note);
    case Grid(table) => TableUses(table);
    case _ =>
  }

  lemma {:induction false} DocumentUses(d: Document)
    requires forall i :: 0 <= i < |d.blocks| ==> ValidBlock(d.blocks[i])
    ensures Uses(DocumentFragment(d), SUPPORTED)
  {
    BlockLinesUse(d.blocks);
  }

  lemma {:induction false} BlockLinesUse(blocks: seq<Block>)
    requires forall i :: 0 <= i < |blocks| ==> ValidBlock(blocks[i])
    ensures Uses(BlockLines(blocks), SUPPORTED)
  {
    if blocks != [] {
      BlockLinesUse(blocks[..|blocks| - 1]);
      BlockUses(blocks[|blocks| - 1]);
    }
  }

  // ---------------------------------------------------------------- preflight

  datatype Rejection = EmptyContent | Declaration | IllFormed | Unsupported

  /** What `strip` removes. */
  predicate IsSpace(c: char) {
    || '\t' <= c <= '\r' || '\U{001C}' <= c <= ' ' || c == '\U{0085}' || c == '\U{00A0}' || c == '\U{1680}'
    || '\U{2000}' <= c <= '\U{200A}' || c == '\U{2028}' || c == '\U{2029}' || c == '\U{202F}' || c == '\U{205F}'
    || c == '\U{3000}'
  }

  function Lower(c: char): char {
    if 'A' <= c <= 'Z' then c - 'A' + 'a' else c
  }

  /** No character outside A-Z lowers to a letter of these two words. */
  predicate Mentions(content: string, k: nat, word: string) {
    k + |word| <= |content| && forall i :: 0 <= i < |word| ==> Lower(content[k + i]) == word[i]
  }

  predicate Declares(content: string) {
    exists k :: 0 <= k < |content| && (Mentions(content, k, "<!doctype") || Mentions(content, k, "<!entity"))
  }

  datatype Format = Xml | Markdown

  function Preflight(content: string, format: Format): Result<(), Rejection> {
    if forall i :: 0 <= i < |content| ==> IsSpace(content[i]) then Err(EmptyContent)
    else if format == Markdown then Ok(())
    else if Declares(content) then Err(Declaration)
    else
      var (mode, tokens) := Run(Text, Normalized(content));
      if mode != Text || Nest([], tokens) != Some([]) then Err(IllFormed)
      else if !OpensOnly(tokens, SUPPORTED) then Err(Unsupported)
      else Ok(())
  }

  /** In printed text every `<` starts a tag. */
  predicate AngleSafe(s: string) {
    forall k :: 0 <= k < |s| && s[k] == '<' ==> k + 1 < |s| && s[k + 1] != '!'
  }

  lemma {:induction false} AngleSafeConcat(a: string, b: string)
    requires AngleSafe(a) && AngleSafe(b)
    ensures AngleSafe(a + b)
  {
    var ab := a + b;
    forall k | 0 <= k < |ab| && ab[k] == '<'
      ensures k + 1 < |ab| && ab[k + 1] != '!'
    {
      if k < |a| {
        assert a[k] == '<' && ab[k + 1] == a[k + 1];
      } else {
        assert b[k - |a|] == '<' && ab[k + 1] == b[k - |a| + 1];
      }
    }
  }

  lemma {:induction false} EscapedIsAngleSafe(s: string)
    ensures AngleSafe(Escape(s)) && AngleSafe(ReplaceLineFeeds(Escape(s)))
  {
    if s != "" {
      var c, rest := s[0], s[1..];
      EscapedIsAngleSafe(rest);
      AngleSafeConcat(EscapeChar(c), Escape(rest));
      ReplaceConcat(EscapeChar(c), Escape(rest));
      OneChar(c);
      if c != '\n' {
        NothingToReplace(EscapeChar(c));
      }
      AngleSafeConcat(ReplaceLineFeeds(EscapeChar(c)), ReplaceLineFeeds(Escape(rest)));
    }
  }

  lemma {:induction false} AttributesAreAngleSafe(attrs: Attributes)
    requires GoodAttributes(attrs)
    ensures AngleSafe(AttributesText(attrs))
    decreases |attrs|
  {
    if attrs != [] {
      var last := attrs[|attrs| - 1];
      NewKey(attrs);
      AttributesAreAngleSafe(attrs[..|attrs| - 1]);
      EscapedIsAngleSafe(last.1);
      AngleSafeConcat(" " + last.0 + "=\"", Escape(last.1));
      AngleSafeConcat(" " + last.0 + "=\"" + Escape(last.1), "\"");
      AngleSafeConcat(AttributesText(attrs[..|attrs| - 1]), AttributeText(last));
    }
  }

  lemma {:induction false} PrintIsAngleSafe(x: Fragment)
    requires Proper(x)
    ensures AngleSafe(Print(x))
  {
    match x
    case Nothing =>
    case Both(a, b) =>
      PrintIsAngleSafe(a);
      PrintIsAngleSafe(b);
      AngleSafeConcat(Print(a), Print(b));
    case Words(text) => EscapedIsAngleSafe(text);
    case Lines(text) => EscapedIsAngleSafe(text);
    case Element(tag, attrs, body) =>
      PrintIsAngleSafe(body);
      AttributesAreAngleSafe(attrs);
      AngleSafeConcat("<" + tag, AttributesText(attrs));
      AngleSafeConcat(Head(tag, attrs), ">");
      AngleSafeConcat(Head(tag, attrs) + ">", Print(body));
      AngleSafeConcat("</", tag);
      AngleSafeConcat("</" + tag, ">");
      AngleSafeConcat(Head(tag, attrs) + ">" + Print(body), "</" + tag + ">");
      FourParts(Head(tag, attrs) + ">" + Print(body), "</", tag, ">");
    case Void(tag, attrs) =>
      AttributesAreAngleSafe(attrs);
      AngleSafeConcat("<" + tag, AttributesText(attrs));
      AngleSafeConcat(Head(tag, attrs), "/>");
  }

  lemma {:induction false} SafeDeclaresNothing(s: string)
    requires AngleSafe(s)
    ensures !Declares(s)
  {
    forall k: nat | k < |s|
      ensures !Mentions(s, k, "<!doctype") && !Mentions(s, k, "<!entity")
    {
      if Mentions(s, k, "<!doctype") {
        StartsDeclaration(s, k, "<!doctype");
      }
      if Mentions(s, k, "<!entity") {
        StartsDeclaration(s, k, "<!entity");
      }
    }
  }

  lemma {:induction false} StartsDeclaration(s: string, k: nat, word: string)
    requires Mentions(s, k, word) && |word| > 1 && word[0] == '<' && word[1] == '!'
    ensures !AngleSafe(s)
  {
    assert Lower(s[k + 0]) == word[0] && Lower(s[k + 1]) == word[1];
  }

  /**
   Printed fragments over the supported tags pass the preflight exactly when they
   hold no character that XML excludes; no other check ever rejects them.
   */
  lemma {:induction false} PreflightAccepts(x: Fragment)
    requires Proper(x) && Uses(x, SUPPORTED) && exists i :: 0 <= i < |Print(x)| && !IsSpace(Print(x)[i])
    ensures Preflight(Print(x), Xml) == if LegalFragment(x) then Ok(()) else Err(IllFormed)
  {
    var text := Print(x);
    PrintIsAngleSafe(x);
    SafeDeclaresNothing(text);
    if LegalFragment(x) {
      PrintReads(x);
      TokensNest([], x, true);
      TokensOpenOnly(x, true, SUPPORTED);
    } else {
      PrintLegal(x);
      NormalizedIsClean(text);
      IllegalIsFatal(Text, Normalized(text));
    }
  }

  // ------------------------------------------------------------------ compile

  function DocumentText(d: Document): string {
    Print(DocumentFragment(d))
  }

  lemma {:induction false} OneMoreLine(blocks: seq<Block>, k: nat)
    requires k < |blocks|
    ensures Print(BlockLines(blocks[..k + 1])) == Print(BlockLines(blocks[..k])) + ("\n" + Print(BlockFragment(blocks[k])))
  {
    OneMore(blocks, k);
    LineBreakPrints();
  }

  /** The title and the blocks, one after the other on lines of their own. */
  method Assemble(d: Document) returns (content: string)
    ensures content == DocumentText(d)
  {
    content := Enclosed(true, "title", Escape(d.title));
    EnclosedPrinted("title", Words(d.title));
    ghost var title := content;
    for k := 0 to |d.blocks|
      invariant content == title + Print(BlockLines(d.blocks[..k]))
    {
      var text := RenderBlock(d.blocks[k]);
      OneMoreLine(d.blocks, k);
      Associative(title, Print(BlockLines(d.blocks[..k])), "\n" + text);
      content := content + ("\n" + text);
    }
    assert d.blocks[..|d.blocks|] == d.blocks;
  }

  /** A compiled document is handed out only if the preflight lets it pass. */
  method CompileDocument(d: Document) returns (r: Result<string, Rejection>)
    requires forall i :: 0 <= i < |d.blocks| ==> ValidBlock(d.blocks[i])
    ensures r == if LegalDocument(d) then Ok(DocumentText(d)) else Err(IllFormed)
  {
    var content := Assemble(d);
    StartsWithTag(d);
    DocumentIsProper(d);
    DocumentUses(d);
    DocumentDecides(d);
    PreflightAccepts(DocumentFragment(d));
    var checked := Preflight(content, Xml);
    r := if checked.Ok? then Ok(content) else Err(checked.error);
  }

  lemma {:induction false} StartsWithTag(d: Document)
    ensures DocumentText(d) != "" && !IsSpace(DocumentText(d)[0])
  {
    ElementEnds(Element("title", [], Words(d.title)));
  }

  /**
   The whole document is read back as meant exactly when none of the author's texts
   and attribute values is excluded or rewritten by XML.
   */
  lemma {:induction false} DocumentReadsBack(d: Document)
    ensures Reads(DocumentText(d), Tokens(DocumentFragment(d), false)) <==> CleanDocument(d)
  {
    DocumentIsProper(d);
    DocumentDecides(d);
    ReadsBack(DocumentFragment(d));
  }

  /** No document with a carriage return in its title is read back as written. */
  lemma {:induction false} LostInTitle(d: Document)
    requires '\r' in d.title
    ensures !Reads(DocumentText(d), Tokens(DocumentFragment(d), false))
  {
    var i :| 0 <= i < |d.title| && d.title[i] == '\r';
    assert !CleanChar(d.title[i]) && !CleanPiece(Spoken(d.title));
    assert Spoken(d.title) in DocumentPieces(d);
    DocumentReadsBack(d);
  }

  /** Such documents compile. */
  lemma {:induction false} ReturnInTitleIsLegal()
    ensures var d := Document("a\rb", [Divider]);
            '\r' in d.title && LegalDocument(d)
  {
    var title, blocks := "a\rb", [Divider];
    assert title[1] == '\r' && AllLegal(title);
    assert blocks[..0] == [] && BlocksPieces(blocks) == {};
  }
}
