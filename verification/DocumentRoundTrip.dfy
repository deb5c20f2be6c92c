/** Reading a compiled document gives back the author's document exactly when XML rewrites nothing in it. */
module DocumentRoundTrip {
  import opened Outcomes
  import opened Markup
  import opened MarkupPrinter
  import opened MarkupTexts
  import opened MarkupTheorems
  import opened MarkupTrees
  import opened RichText
  import opened RichTextMeaning
  import opened DocumentCompiler
  import opened DocumentTexts
  import opened DocumentPublisher
  import opened DocumentReader

  // ------------------------------------------------------------------ reading

  function ShownBlock(tag: string, attrs: Attributes, kids: Forest): seq<Block> {
    if BlockOf(tag, attrs, kids).Some? then [BlockOf(tag, attrs, kids).value] else []
  }

  function BlocksOf(f: Forest): seq<Block> {
    match f
    case Bare => []
    case Leaf(_, rest) => BlocksOf(rest)
    case Node(tag, attrs, kids, rest) => ShownBlock(tag, attrs, kids) + BlocksOf(rest)
  }

  function DocumentOf(f: Forest): Option<Document> {
    if f.Node? && f.tag == "title" then Some(Document(WordsOf(f.kids), BlocksOf(f.rest))) else None
  }

  /** What a reader makes of a document's markup, if it is well formed and starts with a title. */
  function ReadDocument(text: string): Option<Document> {
    var (mode, ts) := Run(Text, Normalized(text));
    if mode == Text && Nest([], ts) == Some([]) then DocumentOf(Grow(ts).0) else None
  }

  function LetteredBlocks(blocks: seq<Block>): (r: seq<Block>)
    ensures |r| == |blocks| && forall i :: 0 <= i < |r| ==> r[i] == LetteredBlock(blocks[i])
  {
    if blocks == [] then [] else LetteredBlocks(blocks[..|blocks| - 1]) + [LetteredBlock(blocks[|blocks| - 1])]
  }

  /** The same document with its rich text taken apart into characters, each in its style. */
  function LetteredDocument(d: Document): Document {
    Document(d.title, LetteredBlocks(d.blocks))
  }

  predicate ValidBlocks(blocks: seq<Block>) {
    forall i :: 0 <= i < |blocks| ==> ValidContent(blocks[i])
  }

  lemma {:induction false} BreakPlanted(tail: Forest)
    ensures Leaves("\n", tail) == Leaf('\n', tail)
  {
    assert "\n"[1..] == "" && Leaves("", tail) == tail;
  }

  lemma {:induction false} LinePlanted(b: Block, tail: Forest)
    requires ValidContent(b)
    ensures BlocksOf(Plant(Both(Words("\n"), BlockFragment(b)), tail)) == [LetteredBlock(b)] + BlocksOf(tail)
  {
    var x := BlockFragment(b);
    BlockReads(b);
    BreakPlanted(Plant(x, tail));
    assert BlocksOf(Plant(x, tail)) == [LetteredBlock(b)] + BlocksOf(tail);
  }

  lemma {:induction false} LinesRead(blocks: seq<Block>, tail: Forest)
    requires ValidBlocks(blocks)
    ensures BlocksOf(Plant(BlockLines(blocks), tail)) == LetteredBlocks(blocks) + BlocksOf(tail)
    decreases |blocks|
  {
    if blocks != [] {
      var before, last := blocks[..|blocks| - 1], blocks[|blocks| - 1];
      LinesRead(before, Plant(Both(Words("\n"), BlockFragment(last)), tail));
      LinePlanted(last, tail);
      Regroup(LetteredBlocks(before), LetteredBlock(last), BlocksOf(tail));
    }
  }

  lemma {:induction false} DocumentPlanted(d: Document)
    requires ValidBlocks(d.blocks)
    ensures DocumentOf(Plant(DocumentFragment(d), Bare)) == Some(LetteredDocument(d))
  {
    var lines := Plant(BlockLines(d.blocks), Bare);
    var title := Element("title", [], Words(d.title));
    assert Plant(title, lines) == Node("title", [], Leaves(d.title, Bare), lines) by {
      assert Plant(Words(d.title), Bare) == Leaves(d.title, Bare);
    }
    assert Plant(DocumentFragment(d), Bare) == Plant(title, lines);
    LinesRead(d.blocks, Bare);
    WordsPlanted(d.title);
    assert LetteredBlocks(d.blocks) + [] == LetteredBlocks(d.blocks);
  }

  // ------------------------------------------------- what a reader can come to see

  predicate CleanForest(f: Forest) {
    match f
    case Bare => true
    case Leaf(c, rest) => CleanChar(c) && CleanForest(rest)
    case Node(_, attrs, kids, rest) => CleanAttributes(attrs) && CleanForest(kids) && CleanForest(rest)
  }

  lemma {:induction false} CleanTail(ts: seq<Token>)
    requires CleanTokens(ts) && ts != []
    ensures CleanToken(ts[0]) && CleanTokens(ts[1..])
  {
  }

  lemma {:induction false} GrownIsClean(ts: seq<Token>)
    requires CleanTokens(ts)
    ensures CleanForest(Grow(ts).0) && CleanTokens(Grow(ts).1)
    decreases |ts|
  {
    if ts != [] {
      CleanTail(ts);
      match ts[0]
      case Close(_) =>
      case Char(_) => GrownIsClean(ts[1..]);
      case Open(_, _) =>
        var inner := Grow(ts[1..]).1;
        GrownIsClean(ts[1..]);
        if inner != [] {
          CleanTail(inner);
        }
        GrownIsClean(if inner == [] then [] else inner[1..]);
    }
  }

  lemma {:induction false} LookIsClean(style: Style, f: Forest)
    requires CleanStyle(style) && CleanForest(f)
    ensures CleanStyled(TreeLook(style, f))
    decreases f
  {
    match f
    case Bare =>
    case Leaf(c, rest) =>
      LookIsClean(style, rest);
      CleanStyledConcat([(c, style)], TreeLook(style, rest));
    case Node(tag, attrs, kids, rest) =>
      RestyledIsClean([style], tag, attrs);
      var inner := Restyled(style, tag, attrs);
      LookIsClean(inner, kids);
      LookIsClean(style, rest);
      var mark := if tag == "br" then [('\n', style)] else [];
      CleanStyledConcat(mark, TreeLook(inner, kids));
      CleanStyledConcat(mark + TreeLook(inner, kids), TreeLook(style, rest));
  }

  lemma {:induction false} SpansAt(cs: Styled)
    ensures |Spans(cs)| == |cs|
    ensures forall i :: 0 <= i < |cs| ==> Spans(cs)[i] == SpanOf(cs[i].0, cs[i].1)
  {
    if cs != [] {
      SpansAt(cs[..|cs| - 1]);
    }
  }

  predicate SoberStyles(cs: Styled) {
    forall i :: 0 <= i < |cs| && cs[i].1.formula ==> cs[i].1.link.None?
  }

  lemma {:induction false} SpansClean(cs: Styled)
    ensures CleanStyled(cs) ==> CleanRich(Spans(cs))
    ensures SoberStyles(cs) && CleanRich(Spans(cs)) ==> CleanStyled(cs)
  {
    SpansAt(cs);
    if SoberStyles(cs) && CleanRich(Spans(cs)) {
      forall i | 0 <= i < |cs|
        ensures CleanChar(cs[i].0) && CleanStyle(cs[i].1)
      {
        assert CleanSpan(Spans(cs)[i]) && Spans(cs)[i].text[0] == cs[i].0;
      }
    }
  }

  lemma {:induction false} MeaningIsSober(spans: seq<Span>)
    requires ValidRich(spans)
    ensures SoberStyles(Meaning(spans))
  {
    if spans != [] {
      var last := spans[|spans| - 1];
      MeaningIsSober(spans[..|spans| - 1]);
      EvenlyAt(last.text, SpanStyle(last));
    }
  }

  lemma {:induction false} RichIsClean(f: Forest)
    requires CleanForest(f)
    ensures CleanRich(Rich(f))
  {
    LookIsClean(PLAIN, f);
    SpansClean(TreeLook(PLAIN, f));
  }

  lemma {:induction false} LetteredIsCleanOnly(spans: seq<Span>)
    requires ValidRich(spans) && CleanRich(Lettered(spans))
    ensures CleanRich(spans)
  {
    MeaningIsSober(spans);
    SpansClean(Meaning(spans));
    MeaningIsClean(spans);
  }

  lemma {:induction false} WordsAreClean(f: Forest)
    requires CleanForest(f)
    ensures CleanText(WordsOf(f))
  {
    match f
    case Bare =>
    case Leaf(_, rest) => WordsAreClean(rest);
    case Node(_, _, _, rest) => WordsAreClean(rest);
  }

  // --------------------------------------------------------- lists and tables

  predicate CleanItems(items: seq<seq<Span>>) {
    forall i :: 0 <= i < |items| ==> CleanRich(items[i])
  }

  predicate CleanCells(cells: seq<Cell>) {
    forall i :: 0 <= i < |cells| ==> CleanRich(cells[i].content)
  }

  predicate CleanRows(rows: seq<seq<Cell>>) {
    forall i :: 0 <= i < |rows| ==> CleanCells(rows[i])
  }

  lemma {:induction false} ItemsAreClean(f: Forest)
    requires CleanForest(f)
    ensures CleanItems(ItemsOf(f))
  {
    match f
    case Bare =>
    case Leaf(_, rest) => ItemsAreClean(rest);
    case Node(_, _, kids, rest) =>
      RichIsClean(kids);
      ItemsAreClean(rest);
  }

  lemma {:induction false} CellsAreClean(f: Forest)
    requires CleanForest(f)
    ensures CleanCells(CellsOf(f))
  {
    match f
    case Bare =>
    case Leaf(_, rest) => CellsAreClean(rest);
    case Node(_, _, kids, rest) =>
      RichIsClean(kids);
      CellsAreClean(rest);
  }

  lemma {:induction false} RowsAreClean(f: Forest)
    requires CleanForest(f)
    ensures CleanRows(RowsOf(f))
  {
    match f
    case Bare =>
    case Leaf(_, rest) => RowsAreClean(rest);
    case Node(_, _, kids, rest) =>
      CellsAreClean(kids);
      RowsAreClean(rest);
  }

  lemma {:induction false} PartIsClean(f: Forest, tag: string)
    requires CleanForest(f)
    ensures CleanForest(Part(f, tag)) && CleanForest(Inside(f))
  {
    match f
    case Bare =>
    case Leaf(_, rest) => PartIsClean(rest, tag);
    case Node(_, _, _, rest) => PartIsClean(rest, tag);
  }

  lemma {:induction false} TableIsClean(kids: Forest)
    requires CleanForest(kids)
    ensures CleanCells(TableOf(kids).headers) && CleanRows(TableOf(kids).rows)
  {
    PartIsClean(kids, "thead");
    PartIsClean(kids, "tbody");
    PartIsClean(Part(kids, "thead"), "");
    CellsAreClean(Inside(Part(kids, "thead")));
    RowsAreClean(Part(kids, "tbody"));
  }

  // ------------------------------------------- the same condition, part by part

  lemma {:induction false} ItemsDecide(items: seq<seq<Span>>)
    ensures CleanPieces(ItemsPieces(items)) <==> CleanItems(items)
  {
    if items != [] {
      var before, last := items[..|items| - 1], items[|items| - 1];
      assert forall i :: 0 <= i < |before| ==> before[i] == items[i];
      ItemsDecide(before);
      RichTextDecides(last);
      PiecesSplit(ItemsPieces(before), RichPieces(last));
    }
  }

  lemma {:induction false} CellsDecide(cells: seq<Cell>)
    ensures CleanPieces(CellsPieces(cells)) <==> CleanCells(cells)
  {
    if cells != [] {
      var before, last := cells[..|cells| - 1], cells[|cells| - 1];
      assert forall i :: 0 <= i < |before| ==> before[i] == cells[i];
      CellsDecide(before);
      RichTextDecides(last.content);
      PiecesSplit(CellsPieces(before), RichPieces(last.content));
    }
  }

  lemma {:induction false} RowsDecide(rows: seq<seq<Cell>>)
    ensures CleanPieces(RowsPieces(rows)) <==> CleanRows(rows)
  {
    if rows != [] {
      var before, last := rows[..|rows| - 1], rows[|rows| - 1];
      assert forall i :: 0 <= i < |before| ==> before[i] == rows[i];
      RowsDecide(before);
      CellsDecide(last);
      PiecesSplit(RowsPieces(before), CellsPieces(last));
    }
  }

  lemma {:induction false} TableDecides(t: Table)
    ensures CleanPieces(TablePieces(t)) <==> CleanCells(t.headers) && CleanRows(t.rows)
  {
    CellsDecide(t.headers);
    RowsDecide(t.rows);
    PiecesSplit(CellsPieces(t.headers), RowsPieces(t.rows));
  }

  predicate CleanBlock(b: Block) {
    CleanPieces(BlockPieces(b))
  }

  predicate CleanBlocks(blocks: seq<Block>) {
    forall i :: 0 <= i < |blocks| ==> CleanBlock(blocks[i])
  }

  lemma {:induction false} BlocksDecided(blocks: seq<Block>)
    ensures CleanPieces(BlocksPieces(blocks)) <==> CleanBlocks(blocks)
  {
    if blocks != [] {
      var before, last := blocks[..|blocks| - 1], blocks[|blocks| - 1];
      assert forall i :: 0 <= i < |before| ==> before[i] == blocks[i];
      BlocksDecided(before);
      PiecesSplit(BlocksPieces(before), BlockPieces(last));
    }
  }

  lemma {:induction false} DocumentDecided(d: Document)
    ensures CleanDocument(d) <==> CleanText(d.title) && CleanBlocks(d.blocks)
  {
    BlocksDecided(d.blocks);
    PiecesSplit({Spoken(d.title)}, BlocksPieces(d.blocks));
    assert CleanPieces({Spoken(d.title)}) <==> CleanPiece(Spoken(d.title));
  }

  // ------------------------------------------------------------------- blocks

  lemma {:induction false} LookupIsClean(attrs: Attributes, key: string)
    requires CleanAttributes(attrs)
    ensures CleanValue(Said(attrs, key)) && (Lookup(attrs, key).Some? ==> CleanValue(Lookup(attrs, key).value))
  {
    LookedUpIsClean(attrs, key);
  }

  lemma {:induction false} CalloutIsClean(attrs: Attributes, kids: Forest)
    requires CleanAttributes(attrs) && CleanForest(kids)
    ensures CleanBlock(CalloutOf(attrs, kids))
  {
    PartIsClean(kids, "");
    RichIsClean(Inside(kids));
    RichTextDecides(Rich(Inside(kids)));
    LookupIsClean(attrs, "emoji");
  }

  lemma {:induction false} ImageIsClean(attrs: Attributes)
    requires CleanAttributes(attrs)
    ensures CleanBlock(ImageOf(attrs))
  {
    LookupIsClean(attrs, "href");
    LookupIsClean(attrs, "caption");
    LookupIsClean(attrs, "name");
  }

  lemma {:induction false} SheetIsClean(attrs: Attributes)
    requires CleanAttributes(attrs)
    ensures CleanBlock(SheetOf(attrs))
  {
    LookupIsClean(attrs, "token");
    LookupIsClean(attrs, "sheet-id");
  }

  /** Where the parts of a block come from that hold the author's texts and values. */
  predicate MadeOf(b: Block, attrs: Attributes, kids: Forest) {
    match b
    case Heading(_, title, _) => title == Rich(kids)
    case Paragraph(content, _) => content == Rich(kids)
    case ItemList(_, items) => items == ItemsOf(kids)
    case Checkbox(task, _) => task == Rich(kids)
    case Quote(quoted) => quoted == Rich(Inside(kids))
    case Callout(_, _, _, _, _) => b == CalloutOf(attrs, kids)
    case Code(code, language, caption) =>
      code == WordsOf(Inside(kids)) && language == Said(attrs, "lang") && caption == Lookup(attrs, "caption")
    case Divider => true
    case Grid(table) => table == TableOf(kids)
    case Image(_, _, _, _, _) => b == ImageOf(attrs)
    case Bookmark(name, href) => name == Said(attrs, "name") && href == Said(attrs, "href")
    case Whiteboard(_, source) => source == WordsOf(kids)
    case Sheet(_) => b == SheetOf(attrs)
  }

  lemma {:induction false} TextBlockMade(tag: string, attrs: Attributes, kids: Forest)
    requires TextBlockOf(tag, attrs, kids).Some?
    ensures MadeOf(TextBlockOf(tag, attrs, kids).value, attrs, kids)
  {
  }

  lemma {:induction false} ObjectBlockMade(tag: string, attrs: Attributes, kids: Forest)
    requires ObjectBlockOf(tag, attrs, kids).Some?
    ensures MadeOf(ObjectBlockOf(tag, attrs, kids).value, attrs, kids)
  {
  }

  lemma {:induction false} BlockMade(tag: string, attrs: Attributes, kids: Forest)
    requires BlockOf(tag, attrs, kids).Some?
    ensures MadeOf(BlockOf(tag, attrs, kids).value, attrs, kids)
  {
    if TextBlockOf(tag, attrs, kids).Some? {
      TextBlockMade(tag, attrs, kids);
    } else {
      ObjectBlockMade(tag, attrs, kids);
    }
  }

  lemma {:induction false} TextBlockIsClean(b: Block, attrs: Attributes, kids: Forest)
    requires CleanForest(kids) && MadeOf(b, attrs, kids)
    requires b.Heading? || b.Paragraph? || b.Checkbox? || b.Quote?
    ensures CleanBlock(b)
  {
    PartIsClean(kids, "");
    var f := if b.Quote? then Inside(kids) else kids;
    RichIsClean(f);
    RichTextDecides(Rich(f));
  }

  lemma {:induction false} ListBlockIsClean(b: Block, attrs: Attributes, kids: Forest)
    requires CleanForest(kids) && MadeOf(b, attrs, kids)
    requires b.ItemList? || b.Grid?
    ensures CleanBlock(b)
  {
    if b.ItemList? {
      ItemsAreClean(kids);
      ItemsDecide(b.items);
    } else {
      TableIsClean(kids);
      TableDecides(b.table);
    }
  }

  lemma {:induction false} QuotedBlockIsClean(b: Block, attrs: Attributes, kids: Forest)
    requires CleanAttributes(attrs) && CleanForest(kids) && MadeOf(b, attrs, kids)
    requires b.Code? || b.Bookmark? || b.Whiteboard?
    ensures CleanBlock(b)
  {
    PartIsClean(kids, "");
    WordsAreClean(kids);
    WordsAreClean(Inside(kids));
    LookupIsClean(attrs, "lang");
    LookupIsClean(attrs, "caption");
    LookupIsClean(attrs, "name");
    LookupIsClean(attrs, "href");
  }

  lemma {:induction false} BlockIsClean(b: Block, attrs: Attributes, kids: Forest)
    requires CleanAttributes(attrs) && CleanForest(kids) && MadeOf(b, attrs, kids)
    ensures CleanBlock(b)
  {
    match b
    case ItemList(_, _) => ListBlockIsClean(b, attrs, kids);
    case Grid(_) => ListBlockIsClean(b, attrs, kids);
    case Code(_, _, _) => QuotedBlockIsClean(b, attrs, kids);
    case Bookmark(_, _) => QuotedBlockIsClean(b, attrs, kids);
    case Whiteboard(_, _) => QuotedBlockIsClean(b, attrs, kids);
    case Callout(_, _, _, _, _) => CalloutIsClean(attrs, kids);
    case Image(_, _, _, _, _) => ImageIsClean(attrs);
    case Sheet(_) => SheetIsClean(attrs);
    case Divider =>
    case _ => TextBlockIsClean(b, attrs, kids);
  }

  lemma {:induction false} BlocksAreClean(f: Forest)
    requires CleanForest(f)
    ensures CleanBlocks(BlocksOf(f))
  {
    match f
    case Bare =>
    case Leaf(_, rest) => BlocksAreClean(rest);
    case Node(tag, attrs, kids, rest) =>
      BlocksAreClean(rest);
      if BlockOf(tag, attrs, kids).Some? {
        BlockMade(tag, attrs, kids);
        BlockIsClean(BlockOf(tag, attrs, kids).value, attrs, kids);
      }
  }

  /** A block of the author's is clean if what a reader would make of it is. */
  lemma {:induction false} LetteredBlockIsCleanOnly(b: Block)
    requires ValidContent(b) && CleanBlock(LetteredBlock(b))
    ensures CleanBlock(b)
  {
    match b
    case Heading(_, title, _) => LetteredRichIsCleanOnly(title);
    case Paragraph(content, _) => LetteredRichIsCleanOnly(content);
    case ItemList(_, items) =>
      ItemsDecide(LetteredItems(items));
      LetteredItemsAreCleanOnly(items);
      ItemsDecide(items);
    case Checkbox(task, _) => LetteredRichIsCleanOnly(task);
    case Quote(quoted) => LetteredRichIsCleanOnly(quoted);
    case Callout(_, _, _, _, _) => LetteredCalloutIsCleanOnly(b);
    case Grid(table) =>
      TableDecides(LetteredTable(table));
      LetteredCellsAreCleanOnly(table.headers);
      LetteredRowsAreCleanOnly(table.rows);
      TableDecides(table);
    case _ =>
  }

  lemma {:induction false} LetteredRichIsCleanOnly(spans: seq<Span>)
    requires ValidRich(spans) && CleanPieces(RichPieces(Lettered(spans)))
    ensures CleanPieces(RichPieces(spans))
  {
    RichTextDecides(Lettered(spans));
    LetteredIsCleanOnly(spans);
    RichTextDecides(spans);
  }

  lemma {:induction false} LetteredCalloutIsCleanOnly(b: Block)
    requires b.Callout? && ValidContent(b) && CleanBlock(LetteredBlock(b))
    ensures CleanBlock(b)
  {
    var spans := Lettered(b.note);
    PiecesSplit({Quoted(b.emoji)}, RichPieces(spans));
    PiecesSplit({Quoted(b.emoji)}, RichPieces(b.note));
    LetteredRichIsCleanOnly(b.note);
  }

  lemma {:induction false} LetteredItemsAreCleanOnly(items: seq<seq<Span>>)
    requires ValidItems(items) && CleanItems(LetteredItems(items))
    ensures CleanItems(items)
  {
    forall i | 0 <= i < |items|
      ensures CleanRich(items[i])
    {
      assert CleanRich(LetteredItems(items)[i]);
      LetteredIsCleanOnly(items[i]);
    }
  }

  lemma {:induction false} LetteredCellsAreCleanOnly(cells: seq<Cell>)
    requires ValidCells(cells) && CleanCells(LetteredCells(cells))
    ensures CleanCells(cells)
  {
    forall i | 0 <= i < |cells|
      ensures CleanRich(cells[i].content)
    {
      assert CleanRich(LetteredCells(cells)[i].content);
      LetteredIsCleanOnly(cells[i].content);
    }
  }

  lemma {:induction false} LetteredRowsAreCleanOnly(rows: seq<seq<Cell>>)
    requires ValidRows(rows) && CleanRows(LetteredRows(rows))
    ensures CleanRows(rows)
  {
    forall i | 0 <= i < |rows|
      ensures CleanCells(rows[i])
    {
      assert CleanCells(LetteredRows(rows)[i]);
      LetteredCellsAreCleanOnly(rows[i]);
    }
  }

  lemma {:induction false} LetteredDocumentIsCleanOnly(d: Document)
    requires ValidBlocks(d.blocks) && CleanDocument(LetteredDocument(d))
    ensures CleanDocument(d)
  {
    DocumentDecided(LetteredDocument(d));
    forall i | 0 <= i < |d.blocks|
      ensures CleanBlock(d.blocks[i])
    {
      assert CleanBlock(LetteredBlocks(d.blocks)[i]);
      LetteredBlockIsCleanOnly(d.blocks[i]);
    }
    DocumentDecided(d);
  }

  // ------------------------------------------------------------- the theorems

  /** Whatever the text, a reader comes to see nothing that XML rewrites. */
  lemma {:induction false} OnlyCleanDocumentsAreRead(text: string)
    ensures ReadDocument(text).Some? ==> CleanDocument(ReadDocument(text).value)
  {
    var ts := Run(Text, Normalized(text)).1;
    var f := Grow(ts).0;
    NormalizedIsClean(text);
    OnlyCleanTokensAreRead(Text, Normalized(text));
    GrownIsClean(ts);
    if DocumentOf(f).Some? {
      WordsAreClean(f.kids);
      BlocksAreClean(f.rest);
      DocumentDecided(DocumentOf(f).value);
    }
  }

  /**
   A reader of the compiled text gets the author's document back, block by block and
   character by character, exactly when nothing the author wrote is excluded or
   rewritten by XML. All that is lost is where equally styled text was cut into spans.
   */
  lemma {:induction false} DocumentRoundTrips(d: Document)
    requires ValidBlocks(d.blocks)
    ensures ReadDocument(DocumentText(d)) == Some(LetteredDocument(d)) <==> CleanDocument(d)
  {
    if CleanDocument(d) {
      var x := DocumentFragment(d);
      DocumentReadsBack(d);
      TokensNest([], x, false);
      TokensGrow(x, []);
      assert Tokens(x, false) + [] == Tokens(x, false);
      DocumentPlanted(d);
    } else {
      OnlyCleanDocumentsAreRead(DocumentText(d));
      if CleanDocument(LetteredDocument(d)) {
        LetteredDocumentIsCleanOnly(d);
      }
    }
  }

  /** Two documents with one text are the same but for the cutting of their rich text. */
  lemma {:induction false} TextDeterminesDocument(d: Document, e: Document)
    requires ValidBlocks(d.blocks) && ValidBlocks(e.blocks) && CleanDocument(d) && CleanDocument(e)
    requires DocumentText(d) == DocumentText(e)
    ensures LetteredDocument(d) == LetteredDocument(e)
  {
    DocumentRoundTrips(d);
    DocumentRoundTrips(e);
  }
}
