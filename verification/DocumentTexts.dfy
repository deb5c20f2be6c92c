/** What a document holds in the author's own words. */
module DocumentTexts {
  import opened Outcomes
  import opened Markup
  import opened MarkupPrinter
  import opened MarkupTheorems
  import opened MarkupTexts
  import opened RichText
  import opened DocumentCompiler

  // -------------------------------------------------------- lists and tables

  function ItemsPieces(items: seq<seq<Span>>): set<Piece> {
    if items == [] then {} else ItemsPieces(items[..|items| - 1]) + RichPieces(items[|items| - 1])
  }

  lemma {:induction false} ItemsCarry(items: seq<seq<Span>>)
    ensures Carries(All(ItemFragments(items)), ItemsPieces(items))
  {
    if items != [] {
      var before, last := items[..|items| - 1], items[|items| - 1];
      ItemsCarry(before);
      RichTextCarries(last);
      CarriesBare("li", RichFragment(last), RichPieces(last));
      assert ItemFragments(items)[..|before|] == ItemFragments(before);
      CarriesBoth(
        All(ItemFragments(before)), ItemsPieces(before), Element("li", [], RichFragment(last)), RichPieces(last));
    }
  }

  function CellsPieces(cells: seq<Cell>): set<Piece> {
    if cells == [] then {} else CellsPieces(cells[..|cells| - 1]) + RichPieces(cells[|cells| - 1].content)
  }

  lemma {:induction false} CellCarries(c: Cell, tag: string)
    ensures Carries(CellFragment(c, tag), RichPieces(c.content))
  {
    PresentValues(CellAttributes(c));
    forall p | p in Given(CellAttributes(c))
      ensures !Telling(p)
    {
      if c.background.Some? {
        ColorsArePlain(c.background.value);
      }
      assert PlainValue(VerticalName(c.vertical)) && PlainValue(Decimal(c.colspan)) && PlainValue(Decimal(c.rowspan));
    }
    RichTextCarries(c.content);
    CarriesElement(tag, Present(CellAttributes(c)), {}, RichFragment(c.content), RichPieces(c.content));
    assert {} + RichPieces(c.content) == RichPieces(c.content);
  }

  lemma {:induction false} CellsCarry(cells: seq<Cell>, tag: string)
    ensures Carries(All(CellFragments(cells, tag)), CellsPieces(cells))
  {
    if cells != [] {
      var before, last := cells[..|cells| - 1], cells[|cells| - 1];
      CellsCarry(before, tag);
      CellCarries(last, tag);
      assert CellFragments(cells, tag)[..|before|] == CellFragments(before, tag);
      CarriesBoth(
        All(CellFragments(before, tag)), CellsPieces(before), CellFragment(last, tag), RichPieces(last.content));
    }
  }

  function RowsPieces(rows: seq<seq<Cell>>): set<Piece> {
    if rows == [] then {} else RowsPieces(rows[..|rows| - 1]) + CellsPieces(rows[|rows| - 1])
  }

  lemma {:induction false} RowsCarry(rows: seq<seq<Cell>>)
    ensures Carries(All(RowFragments(rows)), RowsPieces(rows))
  {
    if rows != [] {
      var before, last := rows[..|rows| - 1], rows[|rows| - 1];
      var cells := All(CellFragments(last, "td"));
      RowsCarry(before);
      CellsCarry(last, "td");
      CarriesBare("tr", cells, CellsPieces(last));
      assert RowFragments(rows)[..|before|] == RowFragments(before);
      CarriesBoth(All(RowFragments(before)), RowsPieces(before), Element("tr", [], cells), CellsPieces(last));
    }
  }

  lemma {:induction false} ColumnsCarry(widths: seq<int>)
    ensures Carries(All(ColumnFragments(widths)), {})
  {
    if widths != [] {
      var before, last := widths[..|widths| - 1], Decimal(widths[|widths| - 1]);
      ColumnsCarry(before);
      PlainTellsNothing("width", last);
      assert ColumnFragments(widths)[..|before|] == ColumnFragments(before);
      CarriesBoth(All(ColumnFragments(before)), {}, Void("col", [("width", last)]), {});
    }
  }

  function TablePieces(t: Table): set<Piece> {
    CellsPieces(t.headers) + RowsPieces(t.rows)
  }

  lemma {:induction false} HeaderCarries(headers: seq<Cell>)
    ensures Carries(Header(headers), CellsPieces(headers))
  {
    if headers != [] {
      var cells := All(CellFragments(headers, "th"));
      CellsCarry(headers, "th");
      CarriesBare("tr", cells, CellsPieces(headers));
      CarriesBare("thead", Element("tr", [], cells), CellsPieces(headers));
    }
  }

  lemma {:induction false} TableCarries(t: Table)
    ensures Carries(TableFragment(t), TablePieces(t))
  {
    var columns, header, rows := Columns(t.widths), Header(t.headers), All(RowFragments(t.rows));
    ColumnsCarry(t.widths);
    CarriesBare("colgroup", All(ColumnFragments(t.widths)), {});
    HeaderCarries(t.headers);
    CarriesBoth(columns, {}, header, CellsPieces(t.headers));
    assert {} + CellsPieces(t.headers) == CellsPieces(t.headers);
    RowsCarry(t.rows);
    CarriesBare("tbody", rows, RowsPieces(t.rows));
    CarriesBoth(Both(columns, header), CellsPieces(t.headers), Element("tbody", [], rows), RowsPieces(t.rows));
    CarriesBare("table", Both(Both(columns, header), Element("tbody", [], rows)), TablePieces(t));
  }

  // ------------------------------------------------------------------- blocks

  /** The texts of a block, and what the author put into attributes: links, captions, names, addresses. */
  function BlockPieces(b: Block): set<Piece> {
    match b
    case Heading(_, title, _) => RichPieces(title)
    case Paragraph(content, _) => RichPieces(content)
    case ItemList(_, items) => ItemsPieces(items)
    case Checkbox(task, _) => RichPieces(task)
    case Quote(quoted) => RichPieces(quoted)
    case Callout(note, emoji, _, _, _) => {Quoted(emoji)} + RichPieces(note)
    case Code(code, language, caption) => {Quoted(language)} + Optional(caption) + {Spoken(code)}
    case Divider => {}
    case Grid(table) => TablePieces(table)
    case Image(url, caption, name, _, _) => {Quoted(url)} + Optional(caption) + Optional(name)
    case Bookmark(name, href) => {Quoted(name), Quoted(href)}
    case Whiteboard(_, source) => {Spoken(source)}
    case Sheet(None) => {}
    case Sheet(Some(pair)) => {Quoted(pair.0), Quoted(pair.1)}
  }

  lemma {:induction false} CalloutCarries(b: Block)
    requires b.Callout?
    ensures Carries(BlockFragment(b), BlockPieces(b))
  {
    var values, note := CalloutAttributes(b), RichFragment(b.note);
    PresentValues(values);
    ColorsArePlain(b.background);
    ColorsArePlain(b.border);
    if b.foreground.Some? {
      ColorsArePlain(b.foreground.value);
    }
    assert values[0].1 == Some(b.emoji) && Quoted(b.emoji) in Given(values);
    RichTextCarries(b.note);
    CarriesBare("p", note, RichPieces(b.note));
    CarriesElement("callout", Present(values), {Quoted(b.emoji)}, Element("p", [], note), RichPieces(b.note));
  }

  lemma {:induction false} ImageCarries(b: Block)
    requires b.Image?
    ensures Carries(BlockFragment(b), BlockPieces(b))
  {
    var values := ImageAttributes(b);
    PresentValues(values);
    assert values[0].1 == Some(b.url) && values[1].1 == b.caption && values[2].1 == b.name;
    assert values[3].1 == Shown(b.width) && values[4].1 == Shown(b.height) && |values| == 5;
    assert BlockPieces(b) <= Given(values);
  }

  lemma {:induction false} PairValues(x: (string, Option<string>), y: (string, Option<string>))
    ensures ValuesOf(Present([x, y])) == Optional(x.1) + Optional(y.1)
  {
    var values := [x, y];
    PresentValues(values);
    assert values[0] == x && values[1] == y;
    assert Given(values) == Optional(x.1) + Optional(y.1);
  }

  /** An element with one plain attribute around rich text. */
  lemma {:induction false} PlainRichCarries(tag: string, key: string, value: string, content: seq<Span>)
    requires PlainValue(value)
    ensures Carries(Element(tag, [(key, value)], RichFragment(content)), RichPieces(content))
  {
    RichTextCarries(content);
    CarriesPlain(tag, key, value, RichFragment(content), RichPieces(content));
  }

  lemma {:induction false} TextBlockCarries(b: Block)
    requires b.Heading? || b.Paragraph? || b.Checkbox? || b.Quote?
    ensures Carries(BlockFragment(b), BlockPieces(b))
  {
    match b
    case Heading(level, title, align) => PlainRichCarries("h" + Decimal(level), "align", AlignName(align), title);
    case Paragraph(content, align) => PlainRichCarries("p", "align", AlignName(align), content);
    case Checkbox(task, done) => PlainRichCarries("checkbox", "done", if done then "true" else "false", task);
    case Quote(quoted) =>
      RichTextCarries(quoted);
      CarriesBare("p", RichFragment(quoted), RichPieces(quoted));
      CarriesBare("blockquote", Element("p", [], RichFragment(quoted)), RichPieces(quoted));
  }

  lemma {:induction false} CodeCarries(b: Block)
    requires b.Code?
    ensures Carries(BlockFragment(b), BlockPieces(b))
  {
    var pair, words := [("lang", Some(b.language)), ("caption", b.caption)], {Spoken(b.code)};
    PairValues(pair[0], pair[1]);
    assert Carries(Words(b.code), words);
    CarriesBare("code", Words(b.code), words);
    CarriesElement("pre", Present(pair), {Quoted(b.language)} + Optional(b.caption), Element("code", [], Words(b.code)), words);
  }

  lemma {:induction false} ReferenceCarries(b: Block)
    requires b.Bookmark? || b.Whiteboard? || b.Sheet?
    ensures Carries(BlockFragment(b), BlockPieces(b))
  {
    match b
    case Bookmark(name, href) => PairValues(("name", Some(name)), ("href", Some(href)));
    case Whiteboard(format, source) =>
      assert Carries(Words(source), {Spoken(source)});
      CarriesPlain("whiteboard", "type", FormatName(format), Words(source), {Spoken(source)});
    case Sheet(None) => CarriesPlain("sheet", "type", "blank", Nothing, {});
    case Sheet(Some(pair)) => PairValues(("token", Some(pair.0)), ("sheet-id", Some(pair.1)));
  }

  lemma {:induction false} BlockCarries(b: Block)
    ensures Carries(BlockFragment(b), BlockPieces(b))
  {
    match b
    case ItemList(ordered, items) =>
      ItemsCarry(items);
      CarriesBare(if ordered then "ol" else "ul", All(ItemFragments(items)), ItemsPieces(items));
    case Callout(_, _, _, _, _) => CalloutCarries(b);
    case Image(_, _, _, _, _) => ImageCarries(b);
    case Divider =>
    case Grid(table) => TableCarries(table);
    case Code(_, _, _) => CodeCarries(b);
    case Bookmark(_, _) => ReferenceCarries(b);
    case Whiteboard(_, _) => ReferenceCarries(b);
    case Sheet(_) => ReferenceCarries(b);
    case _ => TextBlockCarries(b);
  }

  // ----------------------------------------------------------------- documents

  function BlocksPieces(blocks: seq<Block>): set<Piece> {
    if blocks == [] then {} else BlocksPieces(blocks[..|blocks| - 1]) + BlockPieces(blocks[|blocks| - 1])
  }

  function DocumentPieces(d: Document): set<Piece> {
    {Spoken(d.title)} + BlocksPieces(d.blocks)
  }

  /** Nothing the author wrote is excluded or rewritten by XML. */
  predicate CleanDocument(d: Document) {
    CleanPieces(DocumentPieces(d))
  }

  /** Nothing the author wrote is excluded by XML. */
  ghost predicate LegalDocument(d: Document) {
    LegalPieces(DocumentPieces(d))
  }

  lemma LineBreakDecidesNothing(x: Fragment)
    ensures CleanFragment(Both(Words("\n"), x)) <==> CleanFragment(x)
    ensures LegalFragment(Both(Words("\n"), x)) <==> LegalFragment(x)
  {
    assert CleanText("\n") && AllLegal("\n");
  }

  lemma {:induction false} BlocksDecide(blocks: seq<Block>)
    ensures CleanFragment(BlockLines(blocks)) <==> CleanPieces(BlocksPieces(blocks))
    ensures LegalFragment(BlockLines(blocks)) <==> LegalPieces(BlocksPieces(blocks))
  {
    if blocks != [] {
      var before, last := blocks[..|blocks| - 1], blocks[|blocks| - 1];
      BlocksDecide(before);
      BlockCarries(last);
      CarriedDecides(BlockFragment(last), BlockPieces(last));
      LineBreakDecidesNothing(BlockFragment(last));
      PiecesSplit(BlocksPieces(before), BlockPieces(last));
    }
  }

  /** The author's own texts and values decide both conditions on the document. */
  lemma {:induction false} DocumentDecides(d: Document)
    ensures CleanFragment(DocumentFragment(d)) <==> CleanDocument(d)
    ensures LegalFragment(DocumentFragment(d)) <==> LegalDocument(d)
  {
    var title := Element("title", [], Words(d.title));
    BlocksDecide(d.blocks);
    PiecesSplit({Spoken(d.title)}, BlocksPieces(d.blocks));
    CarriesBare("title", Words(d.title), {Spoken(d.title)});
    CarriedDecides(title, {Spoken(d.title)});
  }
}
