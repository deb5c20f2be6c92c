/** A reader of compiled documents, and that it gets back what the author put into them. */
module DocumentReader {
  import opened Outcomes
  import opened Markup
  import opened MarkupPrinter
  import opened MarkupTheorems
  import opened MarkupTrees
  import opened RichText
  import opened RichTextMeaning
  import opened DocumentCompiler
  import opened DocumentPublisher

  // ---------------------------------------------------------- values of attributes

  const COLORS :=
    [Red, Orange, Yellow, Green, Blue, Purple, Gray,
     LightRed, LightOrange, LightYellow, LightGreen, LightBlue, LightPurple, LightGray, MediumGray]

  /** The first of the colors that has the name. */
  function ColorAmong(name: string, colors: seq<Color>): Option<Color> {
    if colors == [] then None
    else if ColorName(colors[0]) == name then Some(colors[0])
    else ColorAmong(name, colors[1..])
  }

  function ColorOf(name: Option<string>): Option<Color> {
    if name.None? then None else ColorAmong(name.value, COLORS)
  }

  lemma ColorNamesDiffer(c: Color, d: Color)
    requires ColorName(c) == ColorName(d)
    ensures c == d
  {
  }

  lemma {:induction false} ColorFound(c: Color, colors: seq<Color>)
    requires c in colors
    ensures ColorAmong(ColorName(c), colors) == Some(c)
  {
    if ColorName(colors[0]) == ColorName(c) {
      ColorNamesDiffer(colors[0], c);
    } else {
      ColorFound(c, colors[1..]);
    }
  }

  lemma ColorListed(c: Color)
    ensures c in COLORS
  {
    var i := match c
      case Red => 0 case Orange => 1 case Yellow => 2 case Green => 3 case Blue => 4 case Purple => 5 case Gray => 6
      case LightRed => 7 case LightOrange => 8 case LightYellow => 9 case LightGreen => 10 case LightBlue => 11
      case LightPurple => 12 case LightGray => 13 case MediumGray => 14;
    assert COLORS[i] == c;
  }

  lemma {:induction false} ColorReads(c: Option<Color>)
    ensures ColorOf(Named(c)) == c
  {
    if c.Some? {
      ColorListed(c.value);
      ColorFound(c.value, COLORS);
    }
  }

  function AlignOf(name: string): Alignment {
    if name == "center" then Center else if name == "right" then Right else Left
  }

  function VerticalOf(name: string): Vertical {
    if name == "middle" then AtMiddle else if name == "bottom" then AtBottom else AtTop
  }

  function FormatOf(name: string): DiagramFormat {
    if name == "plantuml" then PlantUml else if name == "svg" then Svg else Mermaid
  }

  lemma NamesRead(a: Alignment, v: Vertical, f: DiagramFormat)
    ensures AlignOf(AlignName(a)) == a && VerticalOf(VerticalName(v)) == v && FormatOf(FormatName(f)) == f
  {
  }

  function Number(s: string): int {
    if s == "" then 0 else 10 * Number(s[..|s| - 1]) + (s[|s| - 1] as int - '0' as int)
  }

  function Integer(s: string): int {
    if s != "" && s[0] == '-' then -Number(s[1..]) else Number(s)
  }

  lemma {:induction false} DigitsRead(n: nat)
    ensures Number(Digits(n)) == n
  {
    var s := Digits(n);
    if n < 10 {
      assert s[..0] == "" && s[0] as int == n + '0' as int;
    } else {
      DigitsRead(n / 10);
      assert s[..|s| - 1] == Digits(n / 10) && s[|s| - 1] as int == n % 10 + '0' as int;
    }
  }

  lemma {:induction false} DecimalReads(n: int)
    ensures Integer(Decimal(n)) == n
  {
    DigitsRead(if n < 0 then -n else n);
    if n < 0 {
      assert Decimal(n)[1..] == Digits(-n);
    }
  }

  function CountOf(s: Option<string>): Option<nat> {
    if s.Some? && Integer(s.value) >= 0 then Some(Integer(s.value)) else None
  }

  /** A span of one is not written down. */
  function SpanOver(s: Option<string>): nat {
    if CountOf(s).Some? then CountOf(s).value else 1
  }

  lemma {:induction false} CountReads(n: Option<nat>)
    ensures CountOf(Shown(n)) == n
  {
    if n.Some? {
      DecimalReads(n.value);
    }
  }

  lemma {:induction false} SpanReads(n: nat)
    requires n >= 1
    ensures SpanOver(Above1(n)) == n
  {
    DecimalReads(n);
  }

  function Said(attrs: Attributes, key: string): string {
    if Lookup(attrs, key).Some? then Lookup(attrs, key).value else ""
  }

  lemma {:induction false} LookupConcat(a: Attributes, b: Attributes, key: string)
    ensures Lookup(a + b, key) == if Lookup(a, key).Some? then Lookup(a, key) else Lookup(b, key)
  {
    if a == [] {
      assert a + b == b;
    } else {
      LookupConcat(a[1..], b, key);
      assert (a + b)[1..] == a[1..] + b;
    }
  }

  lemma {:induction false} LookupAbsent(values: OptionalAttributes, key: string)
    requires forall i :: 0 <= i < |values| ==> values[i].0 != key
    ensures Lookup(Present(values), key) == None
  {
    if values != [] {
      var before, last := values[..|values| - 1], values[|values| - 1];
      LookupAbsent(before, key);
      LookupConcat(Present(before), if last.1.Some? then [(last.0, last.1.value)] else [], key);
    }
  }

  /** What was written under a name is found under it. */
  lemma {:induction false} LookupPresent(values: OptionalAttributes, i: nat)
    requires GoodKeys(values) && i < |values|
    ensures Lookup(Present(values), values[i].0) == values[i].1
  {
    var before, last := values[..|values| - 1], values[|values| - 1];
    var added := if last.1.Some? then [(last.0, last.1.value)] else [];
    LookupConcat(Present(before), added, values[i].0);
    if i < |before| {
      LookupPresent(before, i);
      assert before[i] == values[i];
    } else {
      LookupAbsent(before, last.0);
    }
  }

  // ------------------------------------------------------------------ rich text

  function SpanOf(c: char, style: Style): Span {
    Span([c], style.bold, style.emphasis, style.strike, style.underline, style.code, style.formula,
         style.link, ColorOf(style.textColor), ColorOf(style.backgroundColor))
  }

  /** Every character as a span of its own. */
  function Spans(cs: Styled): seq<Span> {
    if cs == [] then []
    else
      var last := cs[|cs| - 1];
      Spans(cs[..|cs| - 1]) + [SpanOf(last.0, last.1)]
  }

  function Rich(f: Forest): seq<Span> {
    Spans(TreeLook(PLAIN, f))
  }

  /** The same styled characters, however the author had cut them into spans. */
  function Lettered(spans: seq<Span>): seq<Span> {
    Spans(Meaning(spans))
  }

  predicate ValidRich(spans: seq<Span>) {
    forall i :: 0 <= i < |spans| ==> ValidSpan(spans[i])
  }

  lemma {:induction false} RichReads(spans: seq<Span>)
    requires ValidRich(spans)
    ensures Rich(Plant(RichFragment(spans), Bare)) == Lettered(spans)
  {
    var x := RichFragment(spans);
    PlantedLook(PLAIN, x, Bare);
    RichTextLook(spans);
    assert Look(PLAIN, x) + [] == Look(PLAIN, x);
  }

  predicate NamedStyle(style: Style) {
    && Named(ColorOf(style.textColor)) == style.textColor
    && Named(ColorOf(style.backgroundColor)) == style.backgroundColor
  }

  predicate NamedStyles(cs: Styled) {
    forall i :: 0 <= i < |cs| ==> NamedStyle(cs[i].1)
  }

  lemma {:induction false} SpanMeans(c: char, style: Style)
    requires NamedStyle(style)
    ensures SpanStyle(SpanOf(c, style)) == style && Evenly([c], style) == [(c, style)]
  {
    assert [c][1..] == "";
  }

  lemma {:induction false} MeaningMore(spans: seq<Span>, last: Span)
    ensures Meaning(spans + [last]) == Meaning(spans) + Evenly(last.text, SpanStyle(last))
  {
    assert (spans + [last])[..|spans|] == spans;
  }

  lemma {:induction false} SpansMean(cs: Styled)
    requires NamedStyles(cs)
    ensures Meaning(Spans(cs)) == cs
  {
    if cs != [] {
      var before, last := cs[..|cs| - 1], cs[|cs| - 1];
      assert forall i :: 0 <= i < |before| ==> before[i] == cs[i];
      SpansMean(before);
      SpanMeans(last.0, last.1);
      MeaningMore(Spans(before), SpanOf(last.0, last.1));
      assert before + [last] == cs;
    }
  }

  lemma {:induction false} MeaningIsNamed(spans: seq<Span>)
    ensures NamedStyles(Meaning(spans))
  {
    if spans != [] {
      var last := spans[|spans| - 1];
      MeaningIsNamed(spans[..|spans| - 1]);
      EvenlyAt(last.text, SpanStyle(last));
      ColorReads(last.textColor);
      ColorReads(last.backgroundColor);
    }
  }

  /** Taking the spans apart changes no character and no style. */
  lemma {:induction false} LetteredMeans(spans: seq<Span>)
    ensures Meaning(Lettered(spans)) == Meaning(spans)
  {
    MeaningIsNamed(spans);
    SpansMean(Meaning(spans));
  }

  /** Taken apart alike is the same as looking alike. */
  lemma {:induction false} SameLettersSameMeaning(a: seq<Span>, b: seq<Span>)
    ensures Lettered(a) == Lettered(b) <==> Meaning(a) == Meaning(b)
  {
    LetteredMeans(a);
    LetteredMeans(b);
  }

  function WordsOf(f: Forest): string {
    match f
    case Bare => ""
    case Leaf(c, rest) => [c] + WordsOf(rest)
    case Node(_, _, _, rest) => WordsOf(rest)
  }

  lemma {:induction false} WordsPlanted(text: string)
    ensures WordsOf(Leaves(text, Bare)) == text
  {
    if text != "" {
      WordsPlanted(text[1..]);
    }
  }

  // ------------------------------------------------------------- lists and tables

  /** What the first element holds. */
  function Inside(f: Forest): Forest {
    if f.Node? then f.kids else Bare
  }

  lemma Regroup<T>(before: seq<T>, x: T, after: seq<T>)
    ensures before + ([x] + after) == (before + [x]) + after
  {
  }

  lemma PlantedAll(xs: seq<Fragment>, before: seq<Fragment>, last: Fragment, tail: Forest)
    requires xs == before + [last]
    ensures Plant(All(xs), tail) == Plant(All(before), Plant(last, tail))
  {
    assert xs[..|xs| - 1] == before;
  }

  function ItemsOf(f: Forest): seq<seq<Span>> {
    match f
    case Bare => []
    case Leaf(_, rest) => ItemsOf(rest)
    case Node(_, _, kids, rest) => [Rich(kids)] + ItemsOf(rest)
  }

  function LetteredItems(items: seq<seq<Span>>): (r: seq<seq<Span>>)
    ensures |r| == |items| && forall i :: 0 <= i < |r| ==> r[i] == Lettered(items[i])
  {
    if items == [] then [] else LetteredItems(items[..|items| - 1]) + [Lettered(items[|items| - 1])]
  }

  predicate ValidItems(items: seq<seq<Span>>) {
    forall i :: 0 <= i < |items| ==> ValidRich(items[i])
  }

  lemma {:induction false} ItemsRead(items: seq<seq<Span>>, tail: Forest)
    requires ValidItems(items)
    ensures ItemsOf(Plant(All(ItemFragments(items)), tail)) == LetteredItems(items) + ItemsOf(tail)
    decreases |items|
  {
    if items != [] {
      var before, last := items[..|items| - 1], items[|items| - 1];
      var item := Element("li", [], RichFragment(last));
      PlantedAll(ItemFragments(items), ItemFragments(before), item, tail);
      ItemsRead(before, Plant(item, tail));
      RichReads(last);
      Regroup(LetteredItems(before), Lettered(last), ItemsOf(tail));
    }
  }

  function CellOf(attrs: Attributes, kids: Forest): Cell {
    Cell(Rich(kids), ColorOf(Lookup(attrs, "background-color")), VerticalOf(Said(attrs, "vertical-align")),
         SpanOver(Lookup(attrs, "colspan")), SpanOver(Lookup(attrs, "rowspan")))
  }

  predicate ValidCell(c: Cell) {
    ValidRich(c.content) && c.colspan >= 1 && c.rowspan >= 1
  }

  function LetteredCell(c: Cell): Cell {
    c.(content := Lettered(c.content))
  }

  lemma {:induction false} CellReads(c: Cell)
    requires ValidCell(c)
    ensures CellOf(Present(CellAttributes(c)), Plant(RichFragment(c.content), Bare)) == LetteredCell(c)
  {
    var values := CellAttributes(c);
    CellKeysAreGood(c);
    LookupPresent(values, 0);
    LookupPresent(values, 1);
    LookupPresent(values, 2);
    LookupPresent(values, 3);
    ColorReads(c.background);
    NamesRead(Left, c.vertical, Svg);
    SpanReads(c.colspan);
    SpanReads(c.rowspan);
    RichReads(c.content);
  }

  function CellsOf(f: Forest): seq<Cell> {
    match f
    case Bare => []
    case Leaf(_, rest) => CellsOf(rest)
    case Node(_, attrs, kids, rest) => [CellOf(attrs, kids)] + CellsOf(rest)
  }

  function LetteredCells(cells: seq<Cell>): (r: seq<Cell>)
    ensures |r| == |cells| && forall i :: 0 <= i < |r| ==> r[i] == LetteredCell(cells[i])
  {
    if cells == [] then [] else LetteredCells(cells[..|cells| - 1]) + [LetteredCell(cells[|cells| - 1])]
  }

  predicate ValidCells(cells: seq<Cell>) {
    forall i :: 0 <= i < |cells| ==> ValidCell(cells[i])
  }

  lemma {:induction false} CellPlanted(c: Cell, tag: string, tail: Forest)
    requires ValidCell(c)
    ensures CellsOf(Plant(CellFragment(c, tag), tail)) == [LetteredCell(c)] + CellsOf(tail)
  {
    CellReads(c);
  }

  lemma {:induction false} CellsRead(cells: seq<Cell>, tag: string, tail: Forest)
    requires ValidCells(cells)
    ensures CellsOf(Plant(All(CellFragments(cells, tag)), tail)) == LetteredCells(cells) + CellsOf(tail)
    decreases |cells|
  {
    if cells != [] {
      var before, last := cells[..|cells| - 1], cells[|cells| - 1];
      var cell := CellFragment(last, tag);
      PlantedAll(CellFragments(cells, tag), CellFragments(before, tag), cell, tail);
      CellsRead(before, tag, Plant(cell, tail));
      CellPlanted(last, tag, tail);
      Regroup(LetteredCells(before), LetteredCell(last), CellsOf(tail));
    }
  }

  function RowsOf(f: Forest): seq<seq<Cell>> {
    match f
    case Bare => []
    case Leaf(_, rest) => RowsOf(rest)
    case Node(_, _, kids, rest) => [CellsOf(kids)] + RowsOf(rest)
  }

  function LetteredRows(rows: seq<seq<Cell>>): (r: seq<seq<Cell>>)
    ensures |r| == |rows| && forall i :: 0 <= i < |r| ==> r[i] == LetteredCells(rows[i])
  {
    if rows == [] then [] else LetteredRows(rows[..|rows| - 1]) + [LetteredCells(rows[|rows| - 1])]
  }

  predicate ValidRows(rows: seq<seq<Cell>>) {
    forall i :: 0 <= i < |rows| ==> ValidCells(rows[i])
  }

  lemma {:induction false} RowPlanted(row: seq<Cell>, tail: Forest)
    requires ValidCells(row)
    ensures RowsOf(Plant(Element("tr", [], All(CellFragments(row, "td"))), tail)) == [LetteredCells(row)] + RowsOf(tail)
  {
    CellsRead(row, "td", Bare);
    assert LetteredCells(row) + [] == LetteredCells(row);
  }

  lemma {:induction false} RowsRead(rows: seq<seq<Cell>>, tail: Forest)
    requires ValidRows(rows)
    ensures RowsOf(Plant(All(RowFragments(rows)), tail)) == LetteredRows(rows) + RowsOf(tail)
    decreases |rows|
  {
    if rows != [] {
      var before, last := rows[..|rows| - 1], rows[|rows| - 1];
      var row := Element("tr", [], All(CellFragments(last, "td")));
      PlantedAll(RowFragments(rows), RowFragments(before), row, tail);
      RowsRead(before, Plant(row, tail));
      RowPlanted(last, tail);
      Regroup(LetteredRows(before), LetteredCells(last), RowsOf(tail));
    }
  }

  function WidthsOf(f: Forest): seq<int> {
    match f
    case Bare => []
    case Leaf(_, rest) => WidthsOf(rest)
    case Node(_, attrs, _, rest) => [Integer(Said(attrs, "width"))] + WidthsOf(rest)
  }

  lemma {:induction false} ColumnPlanted(width: int, tail: Forest)
    ensures WidthsOf(Plant(Void("col", [("width", Decimal(width))]), tail)) == [width] + WidthsOf(tail)
  {
    DecimalReads(width);
  }

  lemma {:induction false} WidthsRead(widths: seq<int>, tail: Forest)
    ensures WidthsOf(Plant(All(ColumnFragments(widths)), tail)) == widths + WidthsOf(tail)
    decreases |widths|
  {
    if widths != [] {
      var before, last := widths[..|widths| - 1], widths[|widths| - 1];
      var column := Void("col", [("width", Decimal(last))]);
      PlantedAll(ColumnFragments(widths), ColumnFragments(before), column, tail);
      WidthsRead(before, Plant(column, tail));
      ColumnPlanted(last, tail);
      Regroup(before, last, WidthsOf(tail));
      assert before + [last] == widths;
    }
  }

  /** What the first element of that name holds. */
  function Part(f: Forest, tag: string): Forest {
    match f
    case Bare => Bare
    case Leaf(_, rest) => Part(rest, tag)
    case Node(name, _, kids, rest) => if name == tag then kids else Part(rest, tag)
  }

  function TableOf(kids: Forest): Table {
    Table(CellsOf(Inside(Part(kids, "thead"))), RowsOf(Part(kids, "tbody")), WidthsOf(Part(kids, "colgroup")))
  }

  predicate ValidTable(t: Table) {
    ValidCells(t.headers) && ValidRows(t.rows)
  }

  function LetteredTable(t: Table): Table {
    t.(headers := LetteredCells(t.headers), rows := LetteredRows(t.rows))
  }

  function Section(on: bool, tag: string, kids: Forest, rest: Forest): Forest {
    if on then Node(tag, [], kids, rest) else rest
  }

  /** The parts of a table are found whichever of them are there. */
  lemma {:induction false} PartsFound(columned: bool, columns: Forest, headed: bool, cells: Forest, rows: Forest)
    requires (!columned ==> columns == Bare) && (!headed ==> cells == Bare)
    ensures var body := Node("tbody", [], rows, Bare);
            var all := Section(columned, "colgroup", columns, Section(headed, "thead", Node("tr", [], cells, Bare), body));
            Part(all, "colgroup") == columns && Inside(Part(all, "thead")) == cells && Part(all, "tbody") == rows
  {
    var body := Node("tbody", [], rows, Bare);
    var head := Section(headed, "thead", Node("tr", [], cells, Bare), body);
    assert Part(body, "colgroup") == Bare && Part(body, "thead") == Bare && Part(body, "tbody") == rows;
    assert Part(head, "colgroup") == Bare && Inside(Part(head, "thead")) == cells && Part(head, "tbody") == rows;
  }

  lemma {:induction false} ColumnsPlanted(widths: seq<int>, tail: Forest)
    ensures Plant(Columns(widths), tail) == Section(widths != [], "colgroup", Plant(All(ColumnFragments(widths)), Bare), tail)
  {
  }

  lemma {:induction false} HeaderPlanted(headers: seq<Cell>, tail: Forest)
    ensures Plant(Header(headers), tail)
         == Section(headers != [], "thead", Node("tr", [], Plant(All(CellFragments(headers, "th")), Bare), Bare), tail)
  {
  }

  lemma {:induction false} TablePlanted(t: Table)
    ensures TableFragment(t).Element?
    ensures TableOf(Plant(TableFragment(t).body, Bare)) == Table(
              CellsOf(Plant(All(CellFragments(t.headers, "th")), Bare)),
              RowsOf(Plant(All(RowFragments(t.rows)), Bare)),
              WidthsOf(Plant(All(ColumnFragments(t.widths)), Bare)))
  {
    var columns, cells := Plant(All(ColumnFragments(t.widths)), Bare), Plant(All(CellFragments(t.headers, "th")), Bare);
    var rows := Plant(All(RowFragments(t.rows)), Bare);
    var body := Node("tbody", [], rows, Bare);
    var head := Section(t.headers != [], "thead", Node("tr", [], cells, Bare), body);
    HeaderPlanted(t.headers, body);
    ColumnsPlanted(t.widths, head);
    assert Plant(Element("tbody", [], All(RowFragments(t.rows))), Bare) == body;
    PartsFound(t.widths != [], columns, t.headers != [], cells, rows);
  }

  lemma {:induction false} TableReads(t: Table)
    requires ValidTable(t)
    ensures TableFragment(t).Element? && TableOf(Plant(TableFragment(t).body, Bare)) == LetteredTable(t)
  {
    TablePlanted(t);
    WidthsRead(t.widths, Bare);
    CellsRead(t.headers, "th", Bare);
    RowsRead(t.rows, Bare);
    assert t.widths + [] == t.widths && LetteredCells(t.headers) + [] == LetteredCells(t.headers);
    assert LetteredRows(t.rows) + [] == LetteredRows(t.rows);
  }

  // ------------------------------------------------------------------- blocks

  function CalloutOf(attrs: Attributes, kids: Forest): Block {
    var background, border := ColorOf(Lookup(attrs, "background-color")), ColorOf(Lookup(attrs, "border-color"));
    Callout(Rich(Inside(kids)), Said(attrs, "emoji"),
            if background.Some? then background.value else LightYellow,
            if border.Some? then border.value else Yellow,
            ColorOf(Lookup(attrs, "text-color")))
  }

  function ImageOf(attrs: Attributes): Block {
    Image(Said(attrs, "href"), Lookup(attrs, "caption"), Lookup(attrs, "name"),
          CountOf(Lookup(attrs, "width")), CountOf(Lookup(attrs, "height")))
  }

  function SheetOf(attrs: Attributes): Block {
    if Lookup(attrs, "type") == Some("blank") then Sheet(None)
    else Sheet(Some((Said(attrs, "token"), Said(attrs, "sheet-id"))))
  }

  function LevelOf(tag: string): Option<nat> {
    if |tag| == 2 && tag[0] == 'h' && '1' <= tag[1] <= '9' then Some((tag[1] - '0') as nat) else None
  }

  function TextBlockOf(tag: string, attrs: Attributes, kids: Forest): Option<Block> {
    if LevelOf(tag).Some? then Some(Heading(LevelOf(tag).value, Rich(kids), AlignOf(Said(attrs, "align"))))
    else if tag == "p" then Some(Paragraph(Rich(kids), AlignOf(Said(attrs, "align"))))
    else if tag == "ul" then Some(ItemList(false, ItemsOf(kids)))
    else if tag == "ol" then Some(ItemList(true, ItemsOf(kids)))
    else if tag == "callout" then Some(CalloutOf(attrs, kids))
    else if tag == "checkbox" then Some(Checkbox(Rich(kids), Said(attrs, "done") == "true"))
    else if tag == "blockquote" then Some(Quote(Rich(Inside(kids))))
    else None
  }

  function ObjectBlockOf(tag: string, attrs: Attributes, kids: Forest): Option<Block> {
    if tag == "hr" then Some(Divider)
    else if tag == "pre" then Some(Code(WordsOf(Inside(kids)), Said(attrs, "lang"), Lookup(attrs, "caption")))
    else if tag == "img" then Some(ImageOf(attrs))
    else if tag == "table" then Some(Grid(TableOf(kids)))
    else if tag == "sheet" then Some(SheetOf(attrs))
    else if tag == "bookmark" then Some(Bookmark(Said(attrs, "name"), Said(attrs, "href")))
    else if tag == "whiteboard" then Some(Whiteboard(FormatOf(Said(attrs, "type")), WordsOf(kids)))
    else None
  }

  /** The block an element stands for, if it is one. */
  function BlockOf(tag: string, attrs: Attributes, kids: Forest): Option<Block> {
    var text := TextBlockOf(tag, attrs, kids);
    if text.Some? then text else ObjectBlockOf(tag, attrs, kids)
  }

  lemma {:induction false} TextTags(attrs: Attributes, kids: Forest)
    ensures BlockOf("p", attrs, kids) == Some(Paragraph(Rich(kids), AlignOf(Said(attrs, "align"))))
    ensures BlockOf("ul", attrs, kids) == Some(ItemList(false, ItemsOf(kids)))
    ensures BlockOf("ol", attrs, kids) == Some(ItemList(true, ItemsOf(kids)))
    ensures BlockOf("checkbox", attrs, kids) == Some(Checkbox(Rich(kids), Said(attrs, "done") == "true"))
    ensures BlockOf("blockquote", attrs, kids) == Some(Quote(Rich(Inside(kids))))
    ensures BlockOf("callout", attrs, kids) == Some(CalloutOf(attrs, kids))
  {
  }

  lemma {:induction false} ObjectTags(attrs: Attributes, kids: Forest)
    ensures BlockOf("hr", attrs, kids) == Some(Divider)
    ensures BlockOf("pre", attrs, kids) == Some(Code(WordsOf(Inside(kids)), Said(attrs, "lang"), Lookup(attrs, "caption")))
    ensures BlockOf("img", attrs, kids) == Some(ImageOf(attrs))
    ensures BlockOf("table", attrs, kids) == Some(Grid(TableOf(kids)))
    ensures BlockOf("sheet", attrs, kids) == Some(SheetOf(attrs))
    ensures BlockOf("bookmark", attrs, kids) == Some(Bookmark(Said(attrs, "name"), Said(attrs, "href")))
    ensures BlockOf("whiteboard", attrs, kids) == Some(Whiteboard(FormatOf(Said(attrs, "type")), WordsOf(kids)))
  {
  }

  predicate ValidContent(b: Block) {
    match b
    case Heading(level, title, _) => 1 <= level <= 9 && ValidRich(title)
    case Paragraph(content, _) => ValidRich(content)
    case ItemList(_, items) => ValidItems(items)
    case Checkbox(task, _) => ValidRich(task)
    case Quote(quoted) => ValidRich(quoted)
    case Callout(note, _, _, _, _) => ValidRich(note)
    case Grid(table) => ValidTable(table)
    case _ => true
  }

  /** The same block with its rich text taken apart. */
  function LetteredBlock(b: Block): Block {
    match b
    case Heading(level, title, align) => Heading(level, Lettered(title), align)
    case Paragraph(content, align) => Paragraph(Lettered(content), align)
    case ItemList(ordered, items) => ItemList(ordered, LetteredItems(items))
    case Checkbox(task, done) => Checkbox(Lettered(task), done)
    case Quote(quoted) => Quote(Lettered(quoted))
    case Callout(note, emoji, background, border, foreground) =>
      Callout(Lettered(note), emoji, background, border, foreground)
    case Grid(table) => Grid(LetteredTable(table))
    case _ => b
  }

  /** The element's block is `b` with its rich text taken apart. */
  predicate ReadsAs(x: Fragment, b: Block) {
    match x
    case Element(tag, attrs, body) => BlockOf(tag, attrs, Plant(body, Bare)) == Some(LetteredBlock(b))
    case Void(tag, attrs) => BlockOf(tag, attrs, Bare) == Some(LetteredBlock(b))
    case _ => false
  }

  lemma {:induction false} CalloutReads(b: Block)
    requires b.Callout? && ValidContent(b)
    ensures CalloutOf(Present(CalloutAttributes(b)), Plant(Element("p", [], RichFragment(b.note)), Bare)) == LetteredBlock(b)
  {
    var values := CalloutAttributes(b);
    CalloutKeysAreGood(b);
    LookupPresent(values, 0);
    LookupPresent(values, 1);
    LookupPresent(values, 2);
    LookupPresent(values, 3);
    ColorReads(Some(b.background));
    ColorReads(Some(b.border));
    ColorReads(b.foreground);
    RichReads(b.note);
  }

  lemma {:induction false} ImageReads(b: Block)
    requires b.Image?
    ensures ImageOf(Present(ImageAttributes(b))) == b
  {
    var values := ImageAttributes(b);
    ImageKeysAreGood(b);
    LookupPresent(values, 0);
    LookupPresent(values, 1);
    LookupPresent(values, 2);
    LookupPresent(values, 3);
    LookupPresent(values, 4);
    CountReads(b.width);
    CountReads(b.height);
  }

  lemma {:induction false} PairReads(x: (string, Option<string>), y: (string, Option<string>))
    requires IsName(x.0) && IsName(y.0) && x.0 != y.0
    ensures Lookup(Present([x, y]), x.0) == x.1 && Lookup(Present([x, y]), y.0) == y.1
  {
    LookupPresent([x, y], 0);
    LookupPresent([x, y], 1);
  }

  lemma {:induction false} SheetReads(b: Block)
    requires b.Sheet?
    ensures ReadsAs(BlockFragment(b), b)
  {
    if b.resource.Some? {
      var pair := b.resource.value;
      PairReads(("token", Some(pair.0)), ("sheet-id", Some(pair.1)));
      LookupAbsent([("token", Some(pair.0)), ("sheet-id", Some(pair.1))], "type");
    }
  }

  lemma {:induction false} HeadingReads(b: Block)
    requires b.Heading? && ValidContent(b)
    ensures ReadsAs(BlockFragment(b), b)
  {
    var tag := "h" + Decimal(b.level);
    assert Decimal(b.level) == [Digit(b.level)] && (Digit(b.level) - '0') as int == b.level;
    assert LevelOf(tag) == Some(b.level);
    NamesRead(b.align, AtTop, Svg);
    RichReads(b.title);
  }

  lemma {:induction false} ListReads(b: Block)
    requires b.ItemList? && ValidContent(b)
    ensures ReadsAs(BlockFragment(b), b)
  {
    var kids := Plant(All(ItemFragments(b.items)), Bare);
    ItemsRead(b.items, Bare);
    assert LetteredItems(b.items) + [] == LetteredItems(b.items);
    TextTags([], kids);
  }

  lemma {:induction false} TextReads(b: Block)
    requires b.Paragraph? || b.Checkbox? || b.Quote?
    requires ValidContent(b)
    ensures ReadsAs(BlockFragment(b), b)
  {
    match b
    case Paragraph(content, align) =>
      NamesRead(align, AtTop, Svg);
      RichReads(content);
    case Checkbox(task, _) => RichReads(task);
    case Quote(quoted) => RichReads(quoted);
  }

  lemma {:induction false} CodeReads(b: Block)
    requires b.Code?
    ensures ReadsAs(BlockFragment(b), b)
  {
    PairReads(("lang", Some(b.language)), ("caption", b.caption));
    WordsPlanted(b.code);
  }

  lemma {:induction false} BookmarkReads(b: Block)
    requires b.Bookmark?
    ensures ReadsAs(BlockFragment(b), b)
  {
    PairReads(("name", Some(b.bookmark)), ("href", Some(b.href)));
  }

  lemma {:induction false} WhiteboardReads(b: Block)
    requires b.Whiteboard?
    ensures ReadsAs(BlockFragment(b), b)
  {
    NamesRead(Left, AtTop, b.format);
    WordsPlanted(b.source);
  }

  lemma {:induction false} FrameReads(b: Block)
    requires b.Grid? || b.Callout? || b.Image? || b.Divider?
    requires ValidContent(b)
    ensures ReadsAs(BlockFragment(b), b)
  {
    match b
    case Grid(table) =>
      TableReads(table);
      ObjectTags([], Plant(TableFragment(table).body, Bare));
    case Callout(note, _, _, _, _) =>
      CalloutReads(b);
      TextTags(Present(CalloutAttributes(b)), Plant(Element("p", [], RichFragment(note)), Bare));
    case Image(_, _, _, _, _) =>
      ImageReads(b);
      ObjectTags(Present(ImageAttributes(b)), Bare);
    case Divider => ObjectTags([], Bare);
  }

  lemma {:induction false} BlockReads(b: Block)
    requires ValidContent(b)
    ensures ReadsAs(BlockFragment(b), b)
  {
    if b.Heading? {
      HeadingReads(b);
    } else if b.ItemList? {
      ListReads(b);
    } else if b.Paragraph? || b.Checkbox? || b.Quote? {
      TextReads(b);
    } else if b.Code? {
      CodeReads(b);
    } else if b.Sheet? {
      SheetReads(b);
    } else if b.Bookmark? {
      BookmarkReads(b);
    } else if b.Whiteboard? {
      WhiteboardReads(b);
    } else {
      FrameReads(b);
    }
  }
}
