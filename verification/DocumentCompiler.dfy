/** Typed documents, their compilation to markup, and the preflight every document passes before it is written. */
module DocumentCompiler {
  import opened Outcomes
  import opened Markup
  import opened MarkupPrinter
  import opened MarkupTheorems
  import opened RichText
  import opened RichTextMeaning

  datatype Alignment = Left | Center | Right

  datatype Vertical = AtTop | AtMiddle | AtBottom

  datatype DiagramFormat = Mermaid | PlantUml | Svg

  datatype Cell = Cell(content: seq<Span>, background: Option<Color>, vertical: Vertical, colspan: nat, rowspan: nat)

  datatype Table = Table(headers: seq<Cell>, rows: seq<seq<Cell>>, widths: seq<int>)

  datatype Block =
    | Heading(level: nat, title: seq<Span>, align: Alignment)
    | Paragraph(content: seq<Span>, align: Alignment)
    | ItemList(ordered: bool, items: seq<seq<Span>>)
    | Checkbox(task: seq<Span>, done: bool)
    | Quote(quoted: seq<Span>)
    | Callout(note: seq<Span>, emoji: string, background: Color, border: Color, foreground: Option<Color>)
    | Code(code: string, language: string, caption: Option<string>)
    | Divider
    | Grid(table: Table)
    | Image(url: string, caption: Option<string>, name: Option<string>, width: Option<nat>, height: Option<nat>)
    | Bookmark(bookmark: string, href: string)
    | Whiteboard(format: DiagramFormat, source: string)
    | Sheet(resource: Option<(string, string)>)

  datatype Document = Document(title: string, blocks: seq<Block>)

  predicate ValidBlock(b: Block) {
    b.Heading? ==> 1 <= b.level <= 9
  }

  const SUPPORTED: set<string> :=
    {"a", "b", "blockquote", "bookmark", "br", "button", "callout", "checkbox", "cite", "code", "col", "colgroup",
     "column", "del", "em", "figure", "grid", "h1", "h2", "h3", "h4", "h5", "h6", "h7", "h8", "h9", "hr", "img",
     "latex", "li", "ol", "p", "pre", "sheet", "source", "span", "sub-page-list", "table", "tbody", "td", "th",
     "thead", "time", "title", "tr", "u", "ul", "whiteboard"}

  // ----------------------------------------------------------------- numbers

  function Digit(n: nat): char
    requires n < 10
  {
    ['0', '1', '2', '3', '4', '5', '6', '7', '8', '9'][n]
  }

  function Digits(n: nat): (s: string)
    ensures s != "" && forall i :: 0 <= i < |s| ==> '0' <= s[i] <= '9'
  {
    if n < 10 then [Digit(n)] else Digits(n / 10) + [Digit(n % 10)]
  }

  function Decimal(n: int): (s: string)
    ensures forall i :: 0 <= i < |s| ==> NameChar(s[i])
  {
    if n < 0 then "-" + Digits(-n) else Digits(n)
  }

  function AlignName(a: Alignment): string {
    match a case Left => "left" case Center => "center" case Right => "right"
  }

  function VerticalName(v: Vertical): string {
    match v case AtTop => "top" case AtMiddle => "middle" case AtBottom => "bottom"
  }

  function FormatName(f: DiagramFormat): string {
    match f case Mermaid => "mermaid" case PlantUml => "plantuml" case Svg => "svg"
  }

  function Above1(n: nat): Option<string> {
    if n > 1 then Some(Decimal(n)) else None
  }

  function Shown(n: Option<nat>): Option<string> {
    if n.Some? then Some(Decimal(n.value)) else None
  }

  // ------------------------------------------------------- the fragments meant

  function CellAttributes(c: Cell): OptionalAttributes {
    [("background-color", Named(c.background)), ("vertical-align", Some(VerticalName(c.vertical))),
     ("colspan", Above1(c.colspan)), ("rowspan", Above1(c.rowspan))]
  }

  function CellFragment(c: Cell, tag: string): Fragment {
    Element(tag, Present(CellAttributes(c)), RichFragment(c.content))
  }

  function CellFragments(cells: seq<Cell>, tag: string): (xs: seq<Fragment>)
    ensures |xs| == |cells| && forall i :: 0 <= i < |cells| ==> xs[i] == CellFragment(cells[i], tag)
  {
    seq(|cells|, i requires 0 <= i < |cells| => CellFragment(cells[i], tag))
  }

  function RowFragments(rows: seq<seq<Cell>>): (xs: seq<Fragment>)
    ensures |xs| == |rows| && forall i :: 0 <= i < |rows| ==> xs[i] == Element("tr", [], All(CellFragments(rows[i], "td")))
  {
    seq(|rows|, i requires 0 <= i < |rows| => Element("tr", [], All(CellFragments(rows[i], "td"))))
  }

  function ColumnFragments(widths: seq<int>): (xs: seq<Fragment>)
    ensures |xs| == |widths| && forall i :: 0 <= i < |widths| ==> xs[i] == Void("col", [("width", Decimal(widths[i]))])
  {
    seq(|widths|, i requires 0 <= i < |widths| => Void("col", [("width", Decimal(widths[i]))]))
  }

  function Columns(widths: seq<int>): Fragment {
    if widths == [] then Nothing else Element("colgroup", [], All(ColumnFragments(widths)))
  }

  function Header(headers: seq<Cell>): Fragment {
    if headers == [] then Nothing
    else Element("thead", [], Element("tr", [], All(CellFragments(headers, "th"))))
  }

  function TableFragment(t: Table): Fragment {
    Element("table", [], Both(Both(Columns(t.widths), Header(t.headers)), Element("tbody", [], All(RowFragments(t.rows)))))
  }

  function ItemFragments(items: seq<seq<Span>>): (xs: seq<Fragment>)
    ensures |xs| == |items| && forall i :: 0 <= i < |items| ==> xs[i] == Element("li", [], RichFragment(items[i]))
  {
    seq(|items|, i requires 0 <= i < |items| => Element("li", [], RichFragment(items[i])))
  }

  function CalloutAttributes(b: Block): OptionalAttributes
    requires b.Callout?
  {
    [("emoji", Some(b.emoji)), ("background-color", Some(ColorName(b.background))),
     ("border-color", Some(ColorName(b.border))), ("text-color", Named(b.foreground))]
  }

  function ImageAttributes(b: Block): OptionalAttributes
    requires b.Image?
  {
    [("href", Some(b.url)), ("caption", b.caption), ("name", b.name), ("width", Shown(b.width)), ("height", Shown(b.height))]
  }

  function BlockFragment(b: Block): Fragment {
    match b
    case Heading(level, title, align) => Element("h" + Decimal(level), [("align", AlignName(align))], RichFragment(title))
    case Paragraph(content, align) => Element("p", [("align", AlignName(align))], RichFragment(content))
    case ItemList(ordered, items) => Element(if ordered then "ol" else "ul", [], All(ItemFragments(items)))
    case Checkbox(task, done) => Element("checkbox", [("done", if done then "true" else "false")], RichFragment(task))
    case Quote(quoted) => Element("blockquote", [], Element("p", [], RichFragment(quoted)))
    case Callout(note, _, _, _, _) => Element("callout", Present(CalloutAttributes(b)), Element("p", [], RichFragment(note)))
    case Code(code, language, caption) =>
      Element("pre", Present([("lang", Some(language)), ("caption", caption)]), Element("code", [], Words(code)))
    case Divider => Void("hr", [])
    case Grid(table) => TableFragment(table)
    case Image(_, _, _, _, _) => Void("img", Present(ImageAttributes(b)))
    case Bookmark(name, href) => Element("bookmark", Present([("name", Some(name)), ("href", Some(href))]), Nothing)
    case Whiteboard(format, source) => Element("whiteboard", [("type", FormatName(format))], Words(source))
    case Sheet(None) => Element("sheet", [("type", "blank")], Nothing)
    case Sheet(Some(pair)) => Element("sheet", Present([("token", Some(pair.0)), ("sheet-id", Some(pair.1))]), Nothing)
  }

  /** Each block stands on a line of its own after the title. */
  function BlockLines(blocks: seq<Block>): Fragment {
    if blocks == [] then Nothing
    else Both(BlockLines(blocks[..|blocks| - 1]), Both(Words("\n"), BlockFragment(blocks[|blocks| - 1])))
  }

  function DocumentFragment(d: Document): Fragment {
    Both(Element("title", [], Words(d.title)), BlockLines(d.blocks))
  }

  // ------------------------------------------------------------ the rendering

  function Joined(parts: seq<string>): string {
    if parts == [] then "" else Joined(parts[..|parts| - 1]) + parts[|parts| - 1]
  }

  lemma JoinedMore(parts: seq<string>, part: string)
    ensures Joined(parts + [part]) == Joined(parts) + part
  {
    assert (parts + [part])[..|parts|] == parts;
  }

  function RenderCell(c: Cell, tag: string): string {
    "<" + tag + RenderAttributes(CellAttributes(c)) + ">" + RenderRichText(c.content) + "</" + tag + ">"
  }

  lemma {:induction false} CellPrinted(c: Cell, tag: string)
    ensures RenderCell(c, tag) == Print(CellFragment(c, tag))
  {
    AttributesPrinted(CellAttributes(c));
    RichTextPrinted(c.content);
  }

  lemma {:induction false} PlainStays(s: string)
    requires forall i :: 0 <= i < |s| ==> NameChar(s[i])
    ensures Escape(s) == s
  {
    if s != "" {
      PlainStays(s[1..]);
      assert EscapeChar(s[0]) == [s[0]];
    }
  }

  lemma {:induction false} OneAttributeText(attr: (string, string))
    ensures AttributesText([attr]) == AttributeText(attr)
  {
    assert [attr][..0] == [];
  }

  /** A tag with one attribute whose value needs no escaping. */
  lemma {:induction false} PlainAttributePrinted(tag: string, key: string, value: string)
    requires forall i :: 0 <= i < |value| ==> NameChar(value[i])
    ensures "<" + tag + AttributesText([(key, value)]) == "<" + tag + " " + key + "=\"" + value + "\""
  {
    PlainStays(value);
    OneAttributeText((key, value));
    FiveParts("<" + tag, " ", key, "=\"", value, "\"");
  }

  lemma FiveParts(start: string, a: string, b: string, c: string, d: string, e: string)
    ensures start + (a + b + c + d + e) == start + a + b + c + d + e
  {
  }

  function RenderColumn(width: int): string {
    "<col width=\"" + Decimal(width) + "\"/>"
  }

  lemma {:induction false} ColumnPrinted(width: int)
    ensures Print(Void("col", [("width", Decimal(width))])) == RenderColumn(width)
  {
    PlainAttributePrinted("col", "width", Decimal(width));
    assert "<" + "col" + " " + "width" + "=\"" + Decimal(width) + "\"" == "<col width=\"" + Decimal(width) + "\"";
    assert "\"" + "/>" == "\"/>";
  }

  lemma {:induction false} EnclosedPrinted(tag: string, body: Fragment)
    ensures Print(Element(tag, [], body)) == Enclosed(true, tag, Print(body))
  {
    WrappedPrints(true, tag, body);
  }

  // ------------------------------------------------------------------- tables

  function CellsText(cells: seq<Cell>, tag: string): string {
    if cells == [] then "" else CellsText(cells[..|cells| - 1], tag) + RenderCell(cells[|cells| - 1], tag)
  }

  function ColumnsText(widths: seq<int>): string {
    if widths == [] then "" else ColumnsText(widths[..|widths| - 1]) + RenderColumn(widths[|widths| - 1])
  }

  function RowText(row: seq<Cell>): string {
    Enclosed(true, "tr", CellsText(row, "td"))
  }

  function RowsText(rows: seq<seq<Cell>>): string {
    if rows == [] then "" else RowsText(rows[..|rows| - 1]) + RowText(rows[|rows| - 1])
  }

  function ColumnsPart(widths: seq<int>): string {
    if widths == [] then "" else Enclosed(true, "colgroup", ColumnsText(widths))
  }

  function HeaderPart(headers: seq<Cell>): string {
    if headers == [] then "" else Enclosed(true, "thead", Enclosed(true, "tr", CellsText(headers, "th")))
  }

  function TableText(t: Table): string {
    Enclosed(true, "table", ColumnsPart(t.widths) + HeaderPart(t.headers) + Enclosed(true, "tbody", RowsText(t.rows)))
  }

  lemma {:induction false} CellsPrinted(cells: seq<Cell>, tag: string)
    ensures CellsText(cells, tag) == Print(All(CellFragments(cells, tag)))
  {
    if cells != [] {
      var before := cells[..|cells| - 1];
      CellsPrinted(before, tag);
      CellPrinted(cells[|cells| - 1], tag);
      assert CellFragments(cells, tag)[..|before|] == CellFragments(before, tag);
    }
  }

  lemma {:induction false} ColumnsPrinted(widths: seq<int>)
    ensures ColumnsText(widths) == Print(All(ColumnFragments(widths)))
  {
    if widths != [] {
      var before := widths[..|widths| - 1];
      ColumnsPrinted(before);
      ColumnPrinted(widths[|widths| - 1]);
      assert ColumnFragments(widths)[..|before|] == ColumnFragments(before);
    }
  }

  lemma {:induction false} RowPrinted(row: seq<Cell>)
    ensures RowText(row) == Print(Element("tr", [], All(CellFragments(row, "td"))))
  {
    CellsPrinted(row, "td");
    EnclosedPrinted("tr", All(CellFragments(row, "td")));
  }

  lemma {:induction false} RowsPrinted(rows: seq<seq<Cell>>)
    ensures RowsText(rows) == Print(All(RowFragments(rows)))
  {
    if rows != [] {
      var before := rows[..|rows| - 1];
      RowsPrinted(before);
      RowPrinted(rows[|rows| - 1]);
      assert RowFragments(rows)[..|before|] == RowFragments(before);
    }
  }

  lemma {:induction false} ColumnsPartPrinted(widths: seq<int>)
    ensures ColumnsPart(widths) == Print(Columns(widths))
  {
    ColumnsPrinted(widths);
    EnclosedPrinted("colgroup", All(ColumnFragments(widths)));
  }

  lemma {:induction false} HeaderPartPrinted(headers: seq<Cell>)
    ensures HeaderPart(headers) == Print(Header(headers))
  {
    if headers != [] {
      var cells := All(CellFragments(headers, "th"));
      CellsPrinted(headers, "th");
      EnclosedPrinted("tr", cells);
      EnclosedPrinted("thead", Element("tr", [], cells));
    }
  }

  lemma {:induction false} TablePrinted(t: Table)
    ensures TableText(t) == Print(TableFragment(t))
  {
    var rows := All(RowFragments(t.rows));
    var head := Both(Columns(t.widths), Header(t.headers));
    ColumnsPartPrinted(t.widths);
    HeaderPartPrinted(t.headers);
    RowsPrinted(t.rows);
    EnclosedPrinted("tbody", rows);
    EnclosedPrinted("table", Both(head, Element("tbody", [], rows)));
  }

  lemma Grown(parts: seq<string>, start: string, added: string, part: string)
    requires Joined(parts) == start + added
    ensures Joined(parts + [part]) == start + (added + part)
  {
    JoinedMore(parts, part);
  }

  lemma OneMore<T>(xs: seq<T>, k: nat)
    requires k < |xs|
    ensures xs[..k + 1][..k] == xs[..k] && xs[..k + 1][k] == xs[k]
  {
  }

  method AddCells(parts: seq<string>, cells: seq<Cell>, tag: string) returns (longer: seq<string>)
    ensures Joined(longer) == Joined(parts) + CellsText(cells, tag)
  {
    longer := parts;
    for k := 0 to |cells|
      invariant Joined(longer) == Joined(parts) + CellsText(cells[..k], tag)
    {
      OneMore(cells, k);
      Grown(longer, Joined(parts), CellsText(cells[..k], tag), RenderCell(cells[k], tag));
      longer := longer + [RenderCell(cells[k], tag)];
    }
    assert cells[..|cells|] == cells;
  }

  method AddColumns(parts: seq<string>, widths: seq<int>) returns (longer: seq<string>)
    ensures Joined(longer) == Joined(parts) + ColumnsText(widths)
  {
    longer := parts;
    for k := 0 to |widths|
      invariant Joined(longer) == Joined(parts) + ColumnsText(widths[..k])
    {
      OneMore(widths, k);
      Grown(longer, Joined(parts), ColumnsText(widths[..k]), RenderColumn(widths[k]));
      longer := longer + [RenderColumn(widths[k])];
    }
    assert widths[..|widths|] == widths;
  }

  /** Tags around what `inner` adds. */
  lemma Surrounded(parts: seq<string>, open: string, inner: seq<string>, text: string, close: string)
    requires Joined(inner) == Joined(parts + [open]) + text
    ensures Joined(inner + [close]) == Joined(parts) + (open + text + close)
  {
    JoinedMore(parts, open);
    JoinedMore(inner, close);
    FourParts(Joined(parts), open, text, close);
  }

  lemma FourParts(a: string, b: string, c: string, d: string)
    ensures ((a + b) + c) + d == a + (b + c + d)
  {
  }

  method AddRow(parts: seq<string>, row: seq<Cell>) returns (longer: seq<string>)
    ensures Joined(longer) == Joined(parts) + RowText(row)
  {
    var inner := AddCells(parts + [StartTag("tr")], row, "td");
    Surrounded(parts, StartTag("tr"), inner, CellsText(row, "td"), EndTag("tr"));
    longer := inner + [EndTag("tr")];
  }

  method AddRows(parts: seq<string>, rows: seq<seq<Cell>>) returns (longer: seq<string>)
    ensures Joined(longer) == Joined(parts) + RowsText(rows)
  {
    longer := parts;
    for k := 0 to |rows|
      invariant Joined(longer) == Joined(parts) + RowsText(rows[..k])
    {
      ghost var before := Joined(longer);
      longer := AddRow(longer, rows[k]);
      OneMore(rows, k);
      Associative(Joined(parts), RowsText(rows[..k]), RowText(rows[k]));
    }
    assert rows[..|rows|] == rows;
  }

  lemma Associative(a: string, b: string, c: string)
    ensures (a + b) + c == a + (b + c)
  {
  }

  method AddColumnsPart(parts: seq<string>, widths: seq<int>) returns (longer: seq<string>)
    ensures Joined(longer) == Joined(parts) + ColumnsPart(widths)
  {
    longer := parts;
    if widths != [] {
      var inner := AddColumns(parts + [StartTag("colgroup")], widths);
      Surrounded(parts, StartTag("colgroup"), inner, ColumnsText(widths), EndTag("colgroup"));
      longer := inner + [EndTag("colgroup")];
    }
  }

  method AddHeaderPart(parts: seq<string>, headers: seq<Cell>) returns (longer: seq<string>)
    ensures Joined(longer) == Joined(parts) + HeaderPart(headers)
  {
    longer := parts;
    if headers != [] {
      var open, close := StartTag("thead") + StartTag("tr"), EndTag("tr") + EndTag("thead");
      var inner := AddCells(parts + [open], headers, "th");
      Surrounded(parts, open, inner, CellsText(headers, "th"), close);
      TwoTags(StartTag("thead"), StartTag("tr"), CellsText(headers, "th"), EndTag("tr"), EndTag("thead"));
      longer := inner + [close];
    }
  }

  lemma TwoTags(a: string, b: string, text: string, c: string, d: string)
    ensures (a + b) + text + (c + d) == a + (b + text + c) + d
  {
  }

  method AddBodyPart(parts: seq<string>, rows: seq<seq<Cell>>) returns (longer: seq<string>)
    ensures Joined(longer) == Joined(parts) + (StartTag("tbody") + RowsText(rows) + (EndTag("tbody") + EndTag("table")))
  {
    var inner := AddRows(parts + [StartTag("tbody")], rows);
    Surrounded(parts, StartTag("tbody"), inner, RowsText(rows), EndTag("tbody") + EndTag("table"));
    longer := inner + [EndTag("tbody") + EndTag("table")];
  }

  /** Part by part, as long as there are columns, headers and rows. */
  method RenderTable(t: Table) returns (text: string)
    ensures text == Print(TableFragment(t))
  {
    var parts := [StartTag("table")];
    JoinedMore([], StartTag("table"));
    assert [] + [StartTag("table")] == parts;
    assert "" + StartTag("table") == StartTag("table");
    parts := AddColumnsPart(parts, t.widths);
    parts := AddHeaderPart(parts, t.headers);
    parts := AddBodyPart(parts, t.rows);
    TablePrinted(t);
    TableParts(StartTag("table"), ColumnsPart(t.widths), HeaderPart(t.headers),
               StartTag("tbody"), RowsText(t.rows), EndTag("tbody"), EndTag("table"));
    text := Joined(parts);
  }

  lemma TableParts(a: string, columns: string, header: string, b: string, rows: string, c: string, d: string)
    ensures (a + columns + header) + (b + rows + (c + d)) == a + (columns + header + (b + rows + c)) + d
  {
  }
}
