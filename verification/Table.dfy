/** The table renderer: pkg/table/table.go and pkg/table/render.go. */
module Table {
  import opened Strings
  import opened TextWidth
  import opened TableLayout
  import W = WaterFilling

  /** One cell. styled is the visible text of an explicitly styled cell and "" when the renderer styles
      text itself; styling adds no visible width. */
  datatype Cell = Cell(text: string, styled: string)

  datatype Row = Row(cells: seq<Cell>, detail: string)

  /** What the footer of a page says, in numbers. */
  datatype PageInfo =
    | NoRows
    | PastEnd(page: int, pages: nat, total: nat)
    | Showing(first: nat, last: nat, total: nat, page: int, pages: nat)

  datatype Line =
    | Header(text: string) | Divider(text: string) | RowLine(text: string) | Detail(text: string)
    | Footer(info: PageInfo)

  // ----- widths

  /** The width that column c needs for its cells in rows, starting from w. */
  function Measured(rw: RuneWidth, rows: seq<Row>, c: nat, w: int): int {
    if rows == [] then w
    else
      var m := Measured(rw, rows[..|rows| - 1], c, w);
      var cells := rows[|rows| - 1].cells;
      if c < |cells| then Max(m, StringWidth(rw, cells[c].text)) else m
  }

  function TitleWidth(rw: RuneWidth, column: Column): int {
    Max(StringWidth(rw, column.title), column.minWidth)
  }

  function Capped(column: Column, w: int): int {
    if column.maxWidth > 0 && w > column.maxWidth then column.maxWidth else w
  }

  /** The natural widths: everything fits, unless MaxWidth caps the column. */
  function NaturalWidths(rw: RuneWidth, columns: seq<Column>, rows: seq<Row>): (r: seq<int>)
    ensures |r| == |columns|
  {
    seq(|columns|, c requires 0 <= c < |columns| =>
      Capped(columns[c], Measured(rw, rows, c, TitleWidth(rw, columns[c]))))
  }

  lemma {:induction false} MeasuredLeast(rw: RuneWidth, rows: seq<Row>, c: nat, w: int, bound: int)
    ensures Measured(rw, rows, c, w) <= bound <==>
      && w <= bound
      && forall r :: 0 <= r < |rows| && c < |rows[r].cells| ==> StringWidth(rw, rows[r].cells[c].text) <= bound
  {
    if rows != [] {
      var init, last := rows[..|rows| - 1], rows[|rows| - 1];
      MeasuredLeast(rw, init, c, w, bound);
      assert forall r :: 0 <= r < |init| ==> init[r] == rows[r];
      assert rows == init + [last];
    }
  }

  /** The natural width of an uncapped column is the least that fits its title, its minimum and its cells. */
  lemma NaturalLeast(rw: RuneWidth, columns: seq<Column>, rows: seq<Row>, c: nat, bound: int)
    requires c < |columns|
    ensures NaturalWidths(rw, columns, rows)[c] >= 0
    ensures columns[c].maxWidth <= 0 || bound < columns[c].maxWidth ==>
      (NaturalWidths(rw, columns, rows)[c] <= bound <==>
        && StringWidth(rw, columns[c].title) <= bound && columns[c].minWidth <= bound
        && forall r :: 0 <= r < |rows| && c < |rows[r].cells| ==> StringWidth(rw, rows[r].cells[c].text) <= bound)
    ensures columns[c].maxWidth > 0 ==> NaturalWidths(rw, columns, rows)[c] <= columns[c].maxWidth
  {
    var w := TitleWidth(rw, columns[c]);
    MeasuredLeast(rw, rows, c, w, bound);
    MeasuredLeast(rw, rows, c, w, Measured(rw, rows, c, w));
  }

  // ----- lines

  /** padCell: fills a cell up to its column width. */
  function PadCell(rw: RuneWidth, plain: string, styled: string, target: int, align: Alignment): string {
    var visual := StringWidth(rw, plain);
    if visual >= target then styled
    else
      var diff := target - visual;
      match align
      case AlignRight => Repeat(' ', diff) + styled
      case AlignCenter => Repeat(' ', diff / 2) + styled + Repeat(' ', diff - diff / 2)
      case AlignLeft => styled + Repeat(' ', diff)
  }

  lemma PadCellWidth(rw: RuneWidth, plain: string, styled: string, target: int, align: Alignment)
    requires PlainRunes(rw)
    ensures StringWidth(rw, PadCell(rw, plain, styled, target, align))
         == StringWidth(rw, styled) + Max(0, target - StringWidth(rw, plain))
  {
    var visual := StringWidth(rw, plain);
    if visual < target {
      var diff := target - visual;
      WidthRepeat(rw, ' ', diff);
      WidthRepeat(rw, ' ', diff / 2);
      WidthRepeat(rw, ' ', diff - diff / 2);
      WidthConcat(rw, Repeat(' ', diff), styled);
      WidthConcat(rw, styled, Repeat(' ', diff));
      WidthConcat(rw, Repeat(' ', diff / 2), styled);
      WidthConcat(rw, Repeat(' ', diff / 2) + styled, Repeat(' ', diff - diff / 2));
    }
  }

  /** The text between so many blanks, which fill the cell up to its width; how they are split is the alignment. */
  ghost predicate Between(rw: RuneWidth, cell: string, plain: string, shown: string, target: int, align: Alignment) {
    exists left: nat, right: nat ::
      && cell == Repeat(' ', left) + shown + Repeat(' ', right)
      && left + right == Max(0, target - StringWidth(rw, plain))
      && match align
         case AlignLeft => left == 0
         case AlignRight => right == 0
         case AlignCenter => left <= right <= left + 1
  }

  lemma PadCellBetween(rw: RuneWidth, plain: string, shown: string, target: int, align: Alignment)
    ensures Between(rw, PadCell(rw, plain, shown, target, align), plain, shown, target, align)
  {
    var cell, diff := PadCell(rw, plain, shown, target, align), Max(0, target - StringWidth(rw, plain));
    assert Repeat(' ', 0) == "" && "" + shown == shown && shown + "" == shown;
    match align {
      case AlignLeft =>
        assert cell == Repeat(' ', 0) + shown + Repeat(' ', diff);
      case AlignRight =>
        assert Repeat(' ', diff) + shown + "" == Repeat(' ', diff) + shown;
        assert cell == Repeat(' ', diff) + shown + Repeat(' ', 0);
      case AlignCenter =>
        assert cell == Repeat(' ', diff / 2) + shown + Repeat(' ', diff - diff / 2);
    }
  }

  function HeaderCell(rw: RuneWidth, column: Column, w: int): string {
    var title := if StringWidth(rw, column.title) > w then Truncated(rw, column.title, w) else column.title;
    PadCell(rw, title, title, w, column.align)
  }

  function CellAt(row: Row, c: nat): Cell {
    if c < |row.cells| then row.cells[c] else Cell("", "")
  }

  /** The text of a cell of width w: whole, or cut in the middle for a path and at the end otherwise. */
  function FittedText(rw: RuneWidth, column: Column, text: string, w: int): string {
    if StringWidth(rw, text) <= w then text
    else if column.flexible && !column.endTruncate && Contains(text, "/") then TruncatePath(rw, text, w)
    else Truncated(rw, text, w)
  }

  function RowCell(rw: RuneWidth, column: Column, row: Row, c: nat, w: int): string {
    var cell := CellAt(row, c);
    var text := FittedText(rw, column, cell.text, w);
    var styled := if StringWidth(rw, cell.text) <= w && cell.styled != "" then cell.styled else text;
    PadCell(rw, text, styled, w, column.align)
  }

  function HeaderParts(rw: RuneWidth, columns: seq<Column>, widths: seq<int>): seq<string>
    requires |widths| == |columns|
  {
    seq(|columns|, c requires 0 <= c < |columns| => HeaderCell(rw, columns[c], widths[c]))
  }

  function RowParts(rw: RuneWidth, columns: seq<Column>, row: Row, widths: seq<int>): seq<string>
    requires |widths| == |columns|
  {
    seq(|columns|, c requires 0 <= c < |columns| => RowCell(rw, columns[c], row, c, widths[c]))
  }

  /** Cell c of a row shows the text of cell c, or its styled form, where that fits; else the text cut to the width,
      in the middle if it is a path in a flexible column that does not ask for the end, and at the end otherwise. A
      row that is too short shows blanks. */
  lemma RowCellShows(rw: RuneWidth, columns: seq<Column>, row: Row, widths: seq<int>, c: nat)
    requires c < |columns| == |widths|
    ensures
      var part, column, w := RowParts(rw, columns, row, widths)[c], columns[c], widths[c];
      if c >= |row.cells| then Between(rw, part, "", "", w, column.align)
      else
        var text, styled := row.cells[c].text, row.cells[c].styled;
        if StringWidth(rw, text) <= w then
          Between(rw, part, text, if styled == "" then text else styled, w, column.align)
        else
          var path := column.flexible && !column.endTruncate && exists i :: 0 <= i < |text| && text[i] == '/';
          var cut := if path then TruncatePath(rw, text, w) else Truncated(rw, text, w);
          Between(rw, part, cut, cut, w, column.align)
  {
    var cell, column, w := CellAt(row, c), columns[c], widths[c];
    var text := FittedText(rw, column, cell.text, w);
    SlashIn(cell.text);
    PadCellBetween(rw, text, if StringWidth(rw, cell.text) <= w && cell.styled != "" then cell.styled else text, w,
                   column.align);
    if c >= |row.cells| && w < 0 {
      assert Truncated(rw, "", w) == "" && Split("", '/') == [""];
    }
  }

  lemma SlashIn(text: string)
    ensures Contains(text, "/") <==> exists i :: 0 <= i < |text| && text[i] == '/'
  {
    if i :| 0 <= i < |text| && text[i] == '/' {
      assert text[i..][..1] == "/";
    }
    if i :| 0 <= i <= |text| && "/" <= text[i..] {
      assert text[i] == "/"[0];
    }
  }

  /** A header cell shows the title of its column, whole or cut to the width. */
  lemma HeaderCellShows(rw: RuneWidth, columns: seq<Column>, widths: seq<int>, c: nat)
    requires c < |columns| == |widths|
    ensures
      var part, title, w := HeaderParts(rw, columns, widths)[c], columns[c].title, widths[c];
      var shown := if StringWidth(rw, title) <= w then title else Truncated(rw, title, w);
      Between(rw, part, shown, shown, w, columns[c].align)
  {
    var title, w := columns[c].title, widths[c];
    var shown := if StringWidth(rw, title) <= w then title else Truncated(rw, title, w);
    PadCellBetween(rw, shown, shown, w, columns[c].align);
  }

  /** The padding between n columns. */
  function Gaps(n: nat, padding: nat): nat {
    if n <= 1 then 0 else padding + Gaps(n - 1, padding)
  }

  /** The width every line of the table body should have. */
  function BodyWidth(rw: RuneWidth, indent: string, widths: seq<int>, padding: nat): int {
    StringWidth(rw, indent) + W.Sum(widths) + Gaps(|widths|, padding)
  }

  /** How much wider an explicitly styled cell shows than its plain text; 0 for all other cells. */
  function Drift(rw: RuneWidth, row: Row, c: nat, w: int): int {
    var cell := CellAt(row, c);
    if StringWidth(rw, cell.text) <= w && cell.styled != ""
    then StringWidth(rw, cell.styled) - StringWidth(rw, cell.text) else 0
  }

  function Drifts(rw: RuneWidth, row: Row, widths: seq<int>): seq<int> {
    seq(|widths|, c requires 0 <= c < |widths| => Drift(rw, row, c, widths[c]))
  }

  function RowDrift(rw: RuneWidth, row: Row, widths: seq<int>): int {
    W.Sum(Drifts(rw, row, widths))
  }

  lemma {:induction false} GapsProduct(n: nat, padding: nat)
    requires n >= 1
    ensures Gaps(n, padding) == (n - 1) * padding
  {
    if n > 1 {
      GapsProduct(n - 1, padding);
      assert (n - 1) * padding == (n - 2) * padding + padding;
    }
  }

  lemma JoinStep(rw: RuneWidth, first: string, pad: string, rest: string)
    ensures StringWidth(rw, first + pad + rest) == StringWidth(rw, first) + StringWidth(rw, pad) + StringWidth(rw, rest)
  {
    WidthConcat(rw, first, pad);
    WidthConcat(rw, first + pad, rest);
  }

  lemma {:induction false} JoinWidth(rw: RuneWidth, parts: seq<string>, widths: seq<int>, pad: string, padding: nat)
    requires |parts| == |widths| >= 1 && StringWidth(rw, pad) == padding
    requires forall c :: 0 <= c < |parts| ==> StringWidth(rw, parts[c]) == widths[c]
    ensures StringWidth(rw, Join(parts, pad)) == W.Sum(widths) + Gaps(|widths|, padding)
  {
    if |parts| == 1 {
      assert widths == [widths[0]];
    } else {
      JoinStep(rw, parts[0], pad, Join(parts[1..], pad));
      JoinWidth(rw, parts[1..], widths[1..], pad, padding);
    }
  }

  /** A line is as wide as its indent, its parts and the padding between them. */
  lemma LineWidth(rw: RuneWidth, indent: string, parts: seq<string>, widths: seq<int>, padding: nat)
    requires |parts| == |widths| >= 1 && PlainRunes(rw)
    requires forall c :: 0 <= c < |parts| ==> StringWidth(rw, parts[c]) == widths[c]
    ensures StringWidth(rw, indent + Join(parts, Repeat(' ', padding))) == BodyWidth(rw, indent, widths, padding)
  {
    var pad := Repeat(' ', padding);
    WidthRepeat(rw, ' ', padding);
    JoinWidth(rw, parts, widths, pad, padding);
    WidthConcat(rw, indent, Join(parts, pad));
  }

  lemma FittedTextFits(rw: RuneWidth, column: Column, text: string, w: int)
    requires PlainRunes(rw) && w >= 0
    ensures StringWidth(rw, FittedText(rw, column, text, w)) <= w
  {
    TruncatedFits(rw, text, w);
    TruncatePathFits(rw, text, w);
  }

  lemma RowCellWidth(rw: RuneWidth, column: Column, row: Row, c: nat, w: int)
    requires PlainRunes(rw) && w >= 0
    ensures StringWidth(rw, RowCell(rw, column, row, c, w)) == w + Drift(rw, row, c, w)
  {
    var cell := CellAt(row, c);
    var text := FittedText(rw, column, cell.text, w);
    FittedTextFits(rw, column, cell.text, w);
    var fits := StringWidth(rw, cell.text) <= w;
    PadCellWidth(rw, text, if fits && cell.styled != "" then cell.styled else text, w, column.align);
  }

  /** The header line is as wide as the layout says, whatever the titles. */
  lemma HeaderWidth(rw: RuneWidth, columns: seq<Column>, widths: seq<int>, indent: string, padding: nat)
    requires PlainRunes(rw) && |widths| == |columns| >= 1 && forall c :: 0 <= c < |widths| ==> widths[c] >= 0
    ensures StringWidth(rw, indent + Join(HeaderParts(rw, columns, widths), Repeat(' ', padding)))
         == BodyWidth(rw, indent, widths, padding)
  {
    var parts := HeaderParts(rw, columns, widths);
    forall c | 0 <= c < |parts| ensures StringWidth(rw, parts[c]) == widths[c] {
      HeaderCellWidth(rw, columns[c], widths[c]);
    }
    LineWidth(rw, indent, parts, widths, padding);
  }

  lemma HeaderCellWidth(rw: RuneWidth, column: Column, w: int)
    requires PlainRunes(rw) && w >= 0
    ensures StringWidth(rw, HeaderCell(rw, column, w)) == w
  {
    TruncatedFits(rw, column.title, w);
    var shown := if StringWidth(rw, column.title) > w then Truncated(rw, column.title, w) else column.title;
    PadCellWidth(rw, shown, shown, w, column.align);
  }

  /** The divider is as wide as the header. */
  function RuleWidth(widths: seq<int>, padding: nat): int {
    W.Sum(widths) + (|widths| - 1) * padding
  }

  lemma DividerWidth(rw: RuneWidth, widths: seq<int>, indent: string, padding: nat)
    requires PlainRunes(rw) && |widths| >= 1 && forall c :: 0 <= c < |widths| ==> widths[c] >= 0
    ensures RuleWidth(widths, padding) >= 0
    ensures StringWidth(rw, indent + Repeat('─', RuleWidth(widths, padding)))
         == BodyWidth(rw, indent, widths, padding)
  {
    W.SumMonotone(seq(|widths|, _ => 0), widths);
    SumZero(|widths|);
    GapsProduct(|widths|, padding);
    var n := W.Sum(widths) + (|widths| - 1) * padding;
    WidthRepeat(rw, '─', n);
    WidthConcat(rw, indent, Repeat('─', n));
  }

  lemma {:induction false} SumZero(n: nat)
    ensures W.Sum(seq(n, _ => 0)) == 0
  {
    if n > 0 {
      assert seq(n, _ => 0)[1..] == seq(n - 1, _ => 0);
      SumZero(n - 1);
    }
  }

  /** A row line is off the header's width by exactly the drift of its styled cells. */
  lemma RowWidth(rw: RuneWidth, columns: seq<Column>, row: Row, widths: seq<int>, indent: string, padding: nat)
    requires PlainRunes(rw) && |widths| == |columns| >= 1 && forall c :: 0 <= c < |widths| ==> widths[c] >= 0
    ensures StringWidth(rw, indent + Join(RowParts(rw, columns, row, widths), Repeat(' ', padding)))
         == BodyWidth(rw, indent, widths, padding) + RowDrift(rw, row, widths)
  {
    var parts, shown := RowParts(rw, columns, row, widths), ShownWidths(rw, row, widths);
    forall c: nat | c < |parts| ensures StringWidth(rw, parts[c]) == shown[c] {
      RowPartWidth(rw, columns, row, widths, c);
    }
    LineWidth(rw, indent, parts, shown, padding);
    ShownTotal(rw, row, widths);
  }

  /** So a row line is as wide as the header if and only if the drifts of its styled cells cancel out. */
  lemma RowAlignedIff(rw: RuneWidth, columns: seq<Column>, row: Row, widths: seq<int>, indent: string, padding: nat)
    requires PlainRunes(rw) && |widths| == |columns| >= 1 && forall c :: 0 <= c < |widths| ==> widths[c] >= 0
    ensures StringWidth(rw, indent + Join(RowParts(rw, columns, row, widths), Repeat(' ', padding)))
         == StringWidth(rw, indent + Join(HeaderParts(rw, columns, widths), Repeat(' ', padding)))
      <==> RowDrift(rw, row, widths) == 0
  {
    RowWidth(rw, columns, row, widths, indent, padding);
    HeaderWidth(rw, columns, widths, indent, padding);
  }

  /** One styled cell that shows wider than its plain text is enough for a row that sticks out. */
  lemma StyledRowSticksOut(rw: RuneWidth, column: Column, indent: string, padding: nat)
    requires PlainRunes(rw)
    ensures
      var row := Row([Cell("/", "//")], "");
      StringWidth(rw, indent + Join(RowParts(rw, [column], row, [1]), Repeat(' ', padding)))
      == StringWidth(rw, indent + Join(HeaderParts(rw, [column], [1]), Repeat(' ', padding))) + 1
  {
    var row := Row([Cell("/", "//")], "");
    assert StringWidth(rw, "") == 0 && "/"[1..] == "" && "//"[1..] == "/";
    assert StringWidth(rw, "/") == 1 && StringWidth(rw, "//") == 2;
    assert Drifts(rw, row, [1]) == [1] && [1][1..] == [];
    assert RowDrift(rw, row, [1]) == 1 + W.Sum([]);
    RowWidth(rw, [column], row, [1], indent, padding);
    HeaderWidth(rw, [column], [1], indent, padding);
  }

  lemma ShownTotal(rw: RuneWidth, row: Row, widths: seq<int>)
    ensures |ShownWidths(rw, row, widths)| == |widths|
    ensures W.Sum(ShownWidths(rw, row, widths)) == W.Sum(widths) + RowDrift(rw, row, widths)
  {
    W.SumAdd(widths, Drifts(rw, row, widths), ShownWidths(rw, row, widths));
  }

  lemma RowPartWidth(rw: RuneWidth, columns: seq<Column>, row: Row, widths: seq<int>, c: nat)
    requires PlainRunes(rw) && c < |widths| == |columns| && widths[c] >= 0
    ensures StringWidth(rw, RowParts(rw, columns, row, widths)[c]) == ShownWidths(rw, row, widths)[c]
  {
    RowCellWidth(rw, columns[c], row, c, widths[c]);
  }

  function ShownWidths(rw: RuneWidth, row: Row, widths: seq<int>): seq<int> {
    seq(|widths|, c requires 0 <= c < |widths| => widths[c] + Drift(rw, row, c, widths[c]))
  }

  // ----- paging

  /** The rows of one page; all rows without a page limit. */
  function PageRows(rows: seq<Row>, page: int, limit: int): seq<Row> {
    if limit <= 0 then rows
    else
      var start := ((if page < 1 then 1 else page) - 1) * limit;
      if start < |rows| then rows[start..Min(start + limit, |rows|)] else []
  }

  function FirstPages(rows: seq<Row>, pages: nat, limit: int): seq<Row> {
    if pages == 0 then [] else FirstPages(rows, pages - 1, limit) + PageRows(rows, pages, limit)
  }

  lemma PageIs(rows: seq<Row>, page: int, limit: int, start: int)
    requires limit > 0 && page >= 1 && start == (page - 1) * limit
    ensures start >= 0
    ensures PageRows(rows, page, limit) == rows[Min(start, |rows|)..Min(start + limit, |rows|)]
  {
  }

  lemma PageNext(rows: seq<Row>, shown: seq<Row>, page: int, limit: int, start: int)
    requires limit > 0 && page >= 1 && start == (page - 1) * limit && start >= 0
    requires shown == rows[..Min(start, |rows|)]
    ensures shown + PageRows(rows, page, limit) == rows[..Min(start + limit, |rows|)]
  {
    PageIs(rows, page, limit, start);
    var a, b := Min(start, |rows|), Min(start + limit, |rows|);
    assert rows[..a] + rows[a..b] == rows[..b];
  }

  /** The pages, one after another, show every row once and in order. */
  lemma {:induction false} PagesCover(rows: seq<Row>, pages: nat, limit: int)
    requires limit > 0
    ensures FirstPages(rows, pages, limit) == rows[..Min(pages * limit, |rows|)]
  {
    if pages > 0 {
      PagesCover(rows, pages - 1, limit);
      var start := (pages - 1) * limit;
      assert pages * limit == start + limit;
      PageNext(rows, FirstPages(rows, pages - 1, limit), pages, limit, start);
    }
  }

  function PageCount(total: nat, limit: int): (pages: nat)
    requires limit > 0
    ensures pages >= 1
  {
    if total > 0 then (total + limit - 1) / limit else 1
  }

  /** The footer of a page; none without a page limit. */
  function FooterLines(total: nat, page: int, limit: int): seq<Line> {
    if limit <= 0 then []
    else if total == 0 then [Footer(NoRows)]
    else
      var start := ((if page < 1 then 1 else page) - 1) * limit;
      [Footer(if start < total then Showing(start + 1, Min(start + limit, total), total, page, PageCount(total, limit))
              else PastEnd(page, PageCount(total, limit), total))]
  }

  /** A page starts before the end exactly when it is one of the pages that are counted. */
  lemma PageInRange(total: nat, limit: int, page: int)
    requires limit > 0 && total > 0 && page >= 1
    ensures (page - 1) * limit < total <==> page <= PageCount(total, limit)
    ensures total <= PageCount(total, limit) * limit
  {
    var pages, rest := PageCount(total, limit), (total + limit - 1) % limit;
    assert total + limit - 1 == pages * limit + rest;
    if page <= pages {
      Times(page - 1, pages - 1, limit);
      assert (pages - 1) * limit == pages * limit - limit;
    } else {
      Times(pages, page - 1, limit);
    }
  }

  lemma Times(a: int, b: int, limit: int)
    requires a <= b && limit > 0
    ensures a * limit <= b * limit
  {
  }

  /** Without a page limit all rows are shown, and no footer. */
  lemma NoPages(rows: seq<Row>, page: int, limit: int)
    requires limit <= 0
    ensures PageRows(rows, page, limit) == rows && FooterLines(|rows|, page, limit) == []
  {
  }

  /** The footer tells the truth: a page that is counted shows exactly the rows from first to last, which are
      some; a later one shows none. A page number below 1 shows the first page but is printed as it was given. */
  lemma FooterMeans(rows: seq<Row>, page: int, limit: int)
    requires limit > 0
    ensures
      var shown, pages := PageRows(rows, page, limit), PageCount(|rows|, limit);
      var info := FooterLines(|rows|, page, limit)[0].info;
      if rows == [] then info == NoRows && shown == []
      else if page <= pages then
        && info.Showing? && 1 <= info.first <= info.last <= |rows| && shown == rows[info.first - 1..info.last]
        && info == Showing(info.first, info.last, |rows|, page, pages)
      else info == PastEnd(page, pages, |rows|) && shown == []
  {
    var p := if page < 1 then 1 else page;
    if rows != [] {
      PageInRange(|rows|, limit, p);
      PageIs(rows, p, limit, (p - 1) * limit);
    }
  }

  /** The pages that are counted show every row once and in order. */
  lemma CountedPagesCover(rows: seq<Row>, limit: int)
    requires limit > 0
    ensures FirstPages(rows, PageCount(|rows|, limit), limit) == rows
  {
    PagesCover(rows, PageCount(|rows|, limit), limit);
    if rows != [] {
      PageInRange(|rows|, limit, 1);
    }
  }

  // ----- the whole table

  lemma LayoutNonNegative(rw: RuneWidth, columns: seq<Column>, rows: seq<Row>, available: int, widths: seq<int>)
    requires LaidOut(NaturalWidths(rw, columns, rows), SoftRules(columns), HardRules(columns), available, widths)
    requires |columns| > 0
    ensures |widths| == |columns| && forall c :: 0 <= c < |widths| ==> widths[c] >= 0
  {
    var natural := NaturalWidths(rw, columns, rows);
    LayoutKeeps(columns, natural, available, widths, 0);
    forall c | 0 <= c < |widths| ensures widths[c] >= 0 {
      LayoutKeeps(columns, natural, available, widths, c);
      NaturalLeast(rw, columns, rows, c, 0);
    }
  }

  /** The cells to the left of column k. */
  function LeftOf(widths: seq<int>, k: nat, padding: nat): int
    requires k <= |widths|
  {
    W.Sum(widths[..k]) + k * padding
  }

  function DetailOffset(widths: seq<int>, detailColumn: int, padding: nat): string {
    var k := Max(0, Min(detailColumn, |widths|));
    Repeat(' ', Max(0, LeftOf(widths, k, padding)))
  }

  /** The lines of the table once its widths are fixed. */
  function BodyLines(rw: RuneWidth, columns: seq<Column>, rows: seq<Row>, widths: seq<int>, indent: string,
                     padding: nat, offset: string): seq<Line>
    requires |widths| == |columns|
  {
    if rows == [] then []
    else
      var init, row := rows[..|rows| - 1], rows[|rows| - 1];
      BodyLines(rw, columns, init, widths, indent, padding, offset)
      + [RowLine(indent + Join(RowParts(rw, columns, row, widths), Repeat(' ', padding)))]
      + (if row.detail != "" then [Detail(indent + offset + row.detail)] else [])
  }

  /** How many of the rows have a detail line. */
  function DetailCount(rows: seq<Row>): nat {
    if rows == [] then 0 else DetailCount(rows[..|rows| - 1]) + if rows[|rows| - 1].detail != "" then 1 else 0
  }

  lemma {:induction false} BodyLength(rw: RuneWidth, columns: seq<Column>, rows: seq<Row>, widths: seq<int>,
                                      indent: string, padding: nat, offset: string)
    requires |widths| == |columns|
    ensures |BodyLines(rw, columns, rows, widths, indent, padding, offset)| == |rows| + DetailCount(rows)
  {
    if rows != [] {
      BodyLength(rw, columns, rows[..|rows| - 1], widths, indent, padding, offset);
    }
  }

  lemma {:induction false} BodyOnly(rw: RuneWidth, columns: seq<Column>, rows: seq<Row>, widths: seq<int>,
                                    indent: string, padding: nat, offset: string, i: nat)
    requires |widths| == |columns| && i < |BodyLines(rw, columns, rows, widths, indent, padding, offset)|
    ensures
      var l := BodyLines(rw, columns, rows, widths, indent, padding, offset)[i];
      l.RowLine? || l.Detail?
  {
    var init := rows[..|rows| - 1];
    if i < |BodyLines(rw, columns, init, widths, indent, padding, offset)| {
      BodyOnly(rw, columns, init, widths, indent, padding, offset, i);
    }
  }

  /** A header, then at most one divider, which is a rule behind the indent, and then rows and details only. */
  ghost predicate InOrder(lines: seq<Line>, divided: bool, indent: string) {
    var above := if divided then 2 else 1;
    && |lines| >= above && lines[0].Header?
    && (divided ==> lines[1].Divider? && exists n: nat :: lines[1].text == indent + Repeat('─', n))
    && forall i :: above <= i < |lines| ==> lines[i].RowLine? || lines[i].Detail?
  }

  lemma OrderedWhen(header: Line, divider: seq<Line>, body: seq<Line>, lines: seq<Line>, indent: string, n: nat)
    requires header.Header? && (divider == [] || divider == [Divider(indent + Repeat('─', n))])
    requires forall i :: 0 <= i < |body| ==> body[i].RowLine? || body[i].Detail?
    requires lines == [header] + divider + body
    ensures InOrder(lines, divider != [], indent) && lines[if divider != [] then 2 else 1..] == body
  {
    assert forall i :: 1 + |divider| <= i < |lines| ==> lines[i] == body[i - 1 - |divider|];
  }

  /** The line at p shows this text, and the next one the detail, if there is one. */
  predicate RowAt(lines: seq<Line>, p: nat, text: string, detail: string, lead: string) {
    && p < |lines| && lines[p] == RowLine(text)
    && (detail != "" ==> p + 1 < |lines| && lines[p + 1] == Detail(lead + detail))
  }

  lemma RowAtEnd(before: seq<Line>, text: string, detail: string, lead: string, lines: seq<Line>)
    requires lines == before + [RowLine(text)] + if detail != "" then [Detail(lead + detail)] else []
    ensures before <= lines && RowAt(lines, |before|, text, detail, lead)
  {
  }

  lemma RowAtLonger(before: seq<Line>, lines: seq<Line>, p: nat, text: string, detail: string, lead: string)
    requires before <= lines && RowAt(before, p, text, detail, lead)
    ensures RowAt(lines, p, text, detail, lead)
  {
  }

  /** The body is one line for each row, in order, each followed by its detail line if it has one. */
  lemma {:induction false} BodyLineAt(rw: RuneWidth, columns: seq<Column>, rows: seq<Row>, widths: seq<int>,
                                      indent: string, padding: nat, offset: string, r: nat, lines: seq<Line>)
    requires |widths| == |columns| && r < |rows|
    requires lines == BodyLines(rw, columns, rows, widths, indent, padding, offset)
    ensures |lines| == |rows| + DetailCount(rows)
    ensures RowAt(lines, r + DetailCount(rows[..r]),
                  indent + Join(RowParts(rw, columns, rows[r], widths), Repeat(' ', padding)), rows[r].detail,
                  indent + offset)
  {
    var init, last := rows[..|rows| - 1], rows[|rows| - 1];
    var before := BodyLines(rw, columns, init, widths, indent, padding, offset);
    BodyLength(rw, columns, rows, widths, indent, padding, offset);
    BodyLength(rw, columns, init, widths, indent, padding, offset);
    RowAtEnd(before, indent + Join(RowParts(rw, columns, last, widths), Repeat(' ', padding)), last.detail,
             indent + offset, lines);
    if r < |init| {
      assert init[..r] == rows[..r];
      BodyLineAt(rw, columns, init, widths, indent, padding, offset, r, before);
      RowAtLonger(before, lines, r + DetailCount(rows[..r]),
                  indent + Join(RowParts(rw, columns, rows[r], widths), Repeat(' ', padding)), rows[r].detail,
                  indent + offset);
    }
  }

  lemma {:induction false} SumTake(widths: seq<int>, k: nat)
    requires k <= |widths|
    ensures W.Sum(widths[..k]) + W.Sum(widths[k..]) == W.Sum(widths)
  {
    if k == 0 {
      assert widths[..0] == [] && widths[0..] == widths;
    } else {
      assert widths[1..][..k - 1] == widths[..k][1..] && widths[1..][k - 1..] == widths[k..];
      SumTake(widths[1..], k - 1);
    }
  }

  /** A detail line starts below column detailColumn of the table, or below its end when there are fewer. */
  lemma DetailBelowColumn(rw: RuneWidth, widths: seq<int>, detailColumn: nat, padding: nat)
    requires PlainRunes(rw) && forall c :: 0 <= c < |widths| ==> widths[c] >= 0
    ensures
      var k := Min(detailColumn, |widths|);
      StringWidth(rw, DetailOffset(widths, detailColumn, padding)) == W.Sum(widths[..k]) + k * padding
  {
    var k := Min(detailColumn, |widths|);
    W.SumMonotone(seq(k, _ => 0), widths[..k]);
    SumZero(k);
    WidthRepeat(rw, ' ', W.Sum(widths[..k]) + k * padding);
  }

  method Total(widths: array<int>, n: nat) returns (total: int)
    requires n <= widths.Length
    ensures total == W.Sum(widths[..n])
    ensures n == widths.Length ==> total == W.Sum(widths[..])
  {
    total := 0;
    for i := 0 to n
      invariant total == W.Sum(widths[..i])
    {
      W.SumSnoc(widths[..i], widths[i]);
      assert widths[..i + 1] == widths[..i] + [widths[i]];
      total := total + widths[i];
    }
    assert n == widths.Length ==> widths[..n] == widths[..];
  }

  /** Every line of the body is a row line or the detail line of a row that is shown. */
  lemma {:induction false} BodyLineWidths(rw: RuneWidth, columns: seq<Column>, rows: seq<Row>, widths: seq<int>,
                                          indent: string, padding: nat, offset: string)
    requires PlainRunes(rw) && |widths| == |columns| >= 1 && forall c :: 0 <= c < |widths| ==> widths[c] >= 0
    ensures forall l :: l in BodyLines(rw, columns, rows, widths, indent, padding, offset) ==>
      match l
      case RowLine(text) =>
        (exists row :: row in rows &&
                       StringWidth(rw, text) == BodyWidth(rw, indent, widths, padding) + RowDrift(rw, row, widths))
      case Detail(text) =>
        (exists row :: row in rows && row.detail != "" && text == indent + offset + row.detail)
      case _ => false
  {
    if rows != [] {
      var init, row := rows[..|rows| - 1], rows[|rows| - 1];
      BodyLineWidths(rw, columns, init, widths, indent, padding, offset);
      RowWidth(rw, columns, row, widths, indent, padding);
      assert row in rows && forall r :: r in init ==> r in rows;
    }
  }

  lemma FlexibleListed(columns: seq<Column>, indices: seq<nat>)
    requires if SomeFlexible(columns)
             then && (forall j :: 0 <= j < |indices| ==> indices[j] < |columns| && columns[indices[j]].flexible)
                  && (forall j, k :: 0 <= j < k < |indices| ==> indices[j] < indices[k])
                  && (forall c :: 0 <= c < |columns| && columns[c].flexible ==> c in indices)
             else indices == seq(|columns|, i => i)
    ensures W.ListsFlexible(indices, SoftRules(columns)) && W.ListsFlexible(indices, HardRules(columns))
  {
    if !SomeFlexible(columns) {
      forall c | 0 <= c < |columns| ensures c in indices {
        assert indices[c] == c;
      }
    }
  }

  /** The indices of the columns that shrink. */
  method FlexibleIndices(columns: seq<Column>) returns (indices: seq<nat>)
    ensures W.ListsFlexible(indices, SoftRules(columns)) && W.ListsFlexible(indices, HardRules(columns))
  {
    indices := [];
    for i := 0 to |columns|
      invariant forall j :: 0 <= j < |indices| ==> indices[j] < i && columns[indices[j]].flexible
      invariant forall j, k :: 0 <= j < k < |indices| ==> indices[j] < indices[k]
      invariant forall c :: 0 <= c < i && columns[c].flexible ==> c in indices
    {
      if columns[i].flexible {
        indices := indices + [i];
      }
    }
    if |indices| == 0 {
      indices := seq(|columns|, i => i);
    } else {
      assert columns[indices[0]].flexible;
    }
    FlexibleListed(columns, indices);
  }

  /** The truncation passes of CalculateWidths. */
  method FitWidths(columns: seq<Column>, natural: array<int>, available: int) returns (widths: array<int>)
    requires natural.Length == |columns|
    ensures LaidOut(natural[..], SoftRules(columns), HardRules(columns), available, widths[..])
    ensures widths == natural || fresh(widths)
  {
    var total := Total(natural, natural.Length);
    if total <= available {
      return natural;
    }
    widths := new int[natural.Length](i requires 0 <= i < natural.Length reads natural => natural[i]);
    assert widths[..] == natural[..];
    var indices := FlexibleIndices(columns);
    ShrinkTwice(widths, indices, SoftRules(columns), HardRules(columns), total, available);
  }

  method ShrinkTwice(widths: array<int>, indices: seq<nat>, softRules: seq<W.Rule>, hardRules: seq<W.Rule>,
                     total: int, available: int)
    requires |softRules| == |hardRules| == widths.Length
    requires W.ListsFlexible(indices, softRules) && W.ListsFlexible(indices, hardRules)
    requires total == W.Sum(widths[..]) > available
    modifies widths
    ensures LaidOut(old(widths[..]), softRules, hardRules, available, widths[..])
  {
    ghost var natural := widths[..];
    var left := W.Shrink(widths, indices, softRules, total - available);
    ghost var soft := widths[..];
    left := W.Shrink(widths, indices, hardRules, left);
    assert TwoPhases(natural, softRules, hardRules, available, soft, widths[..]);
  }

  method BuildHeader(rw: RuneWidth, columns: seq<Column>, widths: seq<int>) returns (parts: seq<string>)
    requires |widths| == |columns|
    ensures parts == HeaderParts(rw, columns, widths)
  {
    parts := [];
    for i := 0 to |columns|
      invariant parts == HeaderParts(rw, columns, widths)[..i]
    {
      parts := parts + [HeaderCell(rw, columns[i], widths[i])];
    }
  }

  method BuildRow(rw: RuneWidth, columns: seq<Column>, row: Row, widths: seq<int>) returns (parts: seq<string>)
    requires |widths| == |columns|
    ensures parts == RowParts(rw, columns, row, widths)
  {
    parts := [];
    for i := 0 to |columns|
      invariant parts == RowParts(rw, columns, row, widths)[..i]
    {
      parts := parts + [RowCell(rw, columns[i], row, i, widths[i])];
    }
  }

  method BuildBody(rw: RuneWidth, columns: seq<Column>, rows: seq<Row>, widths: seq<int>, indent: string,
                   padding: nat, offset: string)
    returns (lines: seq<Line>)
    requires |widths| == |columns|
    ensures lines == BodyLines(rw, columns, rows, widths, indent, padding, offset)
  {
    lines := [];
    for r := 0 to |rows|
      invariant lines == BodyLines(rw, columns, rows[..r], widths, indent, padding, offset)
    {
      var row := rows[r];
      var parts := BuildRow(rw, columns, row, widths);
      lines := lines + [RowLine(indent + Join(parts, Repeat(' ', padding)))];
      if row.detail != "" {
        lines := lines + [Detail(indent + offset + row.detail)];
      }
      assert rows[..r + 1][..r] == rows[..r];
    }
    assert rows[..|rows|] == rows;
  }

  lemma NoDrift(rw: RuneWidth, row: Row, widths: seq<int>)
    requires forall c :: 0 <= c < |row.cells| && row.cells[c].styled != "" ==>
      StringWidth(rw, row.cells[c].styled) == StringWidth(rw, row.cells[c].text)
    ensures RowDrift(rw, row, widths) == 0
  {
    SumZero(|widths|);
    assert Drifts(rw, row, widths) == seq(|widths|, _ => 0);
  }

  /** A row line is as wide as the body should be, when styled cells show as wide as their text. */
  lemma BodyAligned(rw: RuneWidth, columns: seq<Column>, rows: seq<Row>, widths: seq<int>, indent: string, padding: nat,
                    offset: string, l: Line)
    requires PlainRunes(rw) && |widths| == |columns| >= 1 && forall c :: 0 <= c < |widths| ==> widths[c] >= 0
    requires forall row, c :: row in rows && 0 <= c < |row.cells| && row.cells[c].styled != "" ==>
      StringWidth(rw, row.cells[c].styled) == StringWidth(rw, row.cells[c].text)
    requires l in BodyLines(rw, columns, rows, widths, indent, padding, offset)
    ensures l.Detail? || (l.RowLine? && StringWidth(rw, l.text) == BodyWidth(rw, indent, widths, padding))
  {
    BodyLineWidths(rw, columns, rows, widths, indent, padding, offset);
    if l.RowLine? {
      var text := l.text;
      var row :|
        row in rows && StringWidth(rw, text) == BodyWidth(rw, indent, widths, padding) + RowDrift(rw, row, widths);
      NoDrift(rw, row, widths);
    }
  }

  class Table {
    const rw: RuneWidth
    var columns: seq<Column>
    var rows: seq<Row>
    var termWidth: int
    var padding: int
    var indent: string
    var showDivider: bool
    var page: int
    var limit: int
    var detailColumn: int

    constructor (rw: RuneWidth, columns: seq<Column>)
      ensures this.rw == rw && this.columns == columns && rows == [] && termWidth == 0 && padding == 2
      ensures indent == "  " && showDivider && page == 0 && limit == 0 && detailColumn == 0
    {
      this.rw, this.columns, rows, termWidth, padding := rw, columns, [], 0, 2;
      indent, showDivider, page, limit, detailColumn := "  ", true, 0, 0, 0;
    }

    /** AddRow and AddDetailRow: one more row of plain cells. */
    method AddDetailRow(detail: string, values: seq<string>)
      modifies this`rows
      ensures rows == old(rows) + [Row(seq(|values|, i requires 0 <= i < |values| => Cell(values[i], "")), detail)]
    {
      rows := rows + [Row(seq(|values|, i requires 0 <= i < |values| => Cell(values[i], "")), detail)];
    }

    method AddStyledRow(cells: seq<Cell>)
      modifies this`rows
      ensures rows == old(rows) + [Row(cells, "")]
    {
      rows := rows + [Row(cells, "")];
    }

    function HeaderLine(widths: seq<int>): Line
      requires |widths| == |columns| && padding >= 0
      reads this
    {
      Header(indent + Join(HeaderParts(rw, columns, widths), Repeat(' ', padding)))
    }

    function DividerLines(widths: seq<int>): seq<Line>
      requires padding >= 0
      reads this
    {
      if showDivider then [Divider(indent + Repeat('─', Max(0, RuleWidth(widths, padding))))] else []
    }

    /** The lines above the footer. */
    function TableLines(widths: seq<int>): seq<Line>
      requires |widths| == |columns| && padding >= 0
      reads this
    {
      [HeaderLine(widths)]
      + DividerLines(widths)
      + BodyLines(rw, columns, PageRows(rows, page, limit), widths, indent, padding,
                  DetailOffset(widths, detailColumn, padding))
    }

    /** A table shows its header, then the divider if it has one, and below them the body only. */
    lemma LinesInOrder(widths: seq<int>, body: seq<Line>)
      requires |widths| == |columns| && padding >= 0
      requires body == BodyLines(rw, columns, PageRows(rows, page, limit), widths, indent, padding,
                                 DetailOffset(widths, detailColumn, padding))
      ensures InOrder(TableLines(widths), showDivider, indent)
      ensures TableLines(widths)[if showDivider then 2 else 1..] == body
    {
      var shown, offset := PageRows(rows, page, limit), DetailOffset(widths, detailColumn, padding);
      forall i: nat | i < |body| ensures body[i].RowLine? || body[i].Detail? {
        BodyOnly(rw, columns, shown, widths, indent, padding, offset, i);
      }
      OrderedWhen(HeaderLine(widths), DividerLines(widths), body, TableLines(widths), indent,
                  Max(0, RuleWidth(widths, padding)));
    }

    /** Measures titles and cells, column by column and row by row, and caps the result. */
    method MeasureColumns() returns (natural: array<int>)
      ensures fresh(natural) && natural[..] == NaturalWidths(rw, columns, rows)
    {
      natural := new int[|columns|];
      for i := 0 to |columns|
        invariant forall c :: 0 <= c < i ==> natural[c] == TitleWidth(rw, columns[c])
      {
        natural[i] := TitleWidth(rw, columns[i]);
      }
      for r := 0 to |rows|
        invariant forall c :: 0 <= c < |columns| ==>
          natural[c] == Measured(rw, rows[..r], c, TitleWidth(rw, columns[c]))
      {
        var cells := rows[r].cells;
        ghost var before, after := rows[..r], rows[..r + 1];
        assert after[..r] == before && after[r].cells == cells;
        var i := 0;
        while i < |columns| && i < |cells|
          invariant 0 <= i <= |columns| && i <= |cells|
          invariant forall c :: 0 <= c < i ==> natural[c] == Measured(rw, after, c, TitleWidth(rw, columns[c]))
          invariant forall c :: i <= c < |columns| ==> natural[c] == Measured(rw, before, c, TitleWidth(rw, columns[c]))
        {
          var w := StringWidth(rw, cells[i].text);
          if w > natural[i] {
            natural[i] := w;
          }
          i := i + 1;
        }
      }
      assert rows[..|rows|] == rows;
      for i := 0 to |columns|
        invariant forall c :: 0 <= c < |columns| ==>
          natural[c] == var m := Measured(rw, rows, c, TitleWidth(rw, columns[c]));
                        if c < i then Capped(columns[c], m) else m
      {
        natural[i] := Capped(columns[i], natural[i]);
      }
    }

    /** widths is the layout of this table; detected is the terminal width used when none was set. */
    ghost predicate IsLayout(detected: int, widths: seq<int>)
      reads this
    {
      LaidOut(NaturalWidths(rw, columns, rows), SoftRules(columns), HardRules(columns),
              Available(|columns|, termWidth, detected, StringWidth(rw, indent), padding), widths)
    }

    /** CalculateWidths; detected is the width the terminal reports when none was set. */
    method CalculateWidths(detected: int) returns (widths: array<int>)
      ensures fresh(widths) && widths.Length == |columns|
      ensures |columns| > 0 ==> IsLayout(detected, widths[..])
      ensures |columns| > 0 && AllOrNoneFlexible() ==> TakesLine(detected, widths[..])
    {
      if |columns| == 0 {
        widths := new int[0];
        return;
      }
      var natural := MeasureColumns();
      var available := Available(|columns|, termWidth, detected, StringWidth(rw, indent), padding);
      widths := FitWidths(columns, natural, available);
      if AllOrNoneFlexible() {
        LineTakes(detected, widths[..]);
      }
    }

    /** The width of the terminal: the one that was set, or else the one it reports. */
    function Terminal(detected: int): int
      reads this
    {
      if termWidth > 0 then termWidth else detected
    }

    ghost predicate AllOrNoneFlexible()
      reads this
    {
      || (forall c :: 0 <= c < |columns| ==> columns[c].flexible)
      || (forall c :: 0 <= c < |columns| ==> !columns[c].flexible)
    }

    /** A line is as wide as the natural one or as the terminal, whichever is less, but has room for four cells a
        column. */
    ghost predicate TakesLine(detected: int, widths: seq<int>)
      reads this
    {
      LineOf(widths) == Min(LineOf(NaturalWidths(rw, columns, rows)), Max(Terminal(detected), LeastLine()))
    }

    /** The line with four cells a column. */
    function LeastLine(): int
      reads this
    {
      StringWidth(rw, indent) + 4 * |columns| + (|columns| - 1) * padding
    }

    /** How wide a line with cells of these widths is. */
    function LineOf(widths: seq<int>): int
      reads this
    {
      StringWidth(rw, indent) + W.Sum(widths) + (|columns| - 1) * padding
    }

    /** The natural line is laid out as it is when it fits the terminal. */
    lemma NaturalWhenFits(detected: int, widths: seq<int>)
      requires |columns| >= 1 && IsLayout(detected, widths)
      requires LineOf(NaturalWidths(rw, columns, rows)) <= Terminal(detected)
      ensures widths == NaturalWidths(rw, columns, rows)
    {
    }

    /** When the columns are all flexible, or none is, the layout takes just the line it should. */
    lemma LineTakes(detected: int, widths: seq<int>)
      requires |columns| >= 1 && IsLayout(detected, widths) && AllOrNoneFlexible()
      ensures TakesLine(detected, widths)
    {
      var available := Available(|columns|, termWidth, detected, StringWidth(rw, indent), padding);
      LayoutExact(columns, NaturalWidths(rw, columns, rows), available, widths);
    }

    /** In any case it is as wide as the terminal or the least line, unless even its flexible columns, cut to three
        cells, leave more. */
    lemma LineTotal(detected: int, widths: seq<int>)
      requires |columns| >= 1 && IsLayout(detected, widths)
      ensures
        var natural, space := NaturalWidths(rw, columns, rows), Max(Terminal(detected), LeastLine());
        LineOf(natural) > space ==> LineOf(widths) == Max(space, LineOf(Least(columns, natural)))
    {
      var available := Available(|columns|, termWidth, detected, StringWidth(rw, indent), padding);
      LayoutTotal(columns, NaturalWidths(rw, columns, rows), available, widths);
    }

    lemma BodyIsLine(widths: seq<int>)
      requires |widths| == |columns| >= 1 && padding >= 0
      ensures BodyWidth(rw, indent, widths, padding) == LineOf(widths)
    {
      GapsProduct(|columns|, padding);
    }

    /** So every header, divider and row line of a rendered table fits a terminal that has room for four cells a
        column. */
    lemma LinesFitTerminal(detected: int, widths: seq<int>, l: Line)
      requires PlainRunes(rw) && |columns| >= 1 && padding >= 0 && IsLayout(detected, widths)
      requires AllOrNoneFlexible() && LeastLine() <= Terminal(detected)
      requires forall row, c :: row in rows && 0 <= c < |row.cells| && row.cells[c].styled != "" ==>
        StringWidth(rw, row.cells[c].styled) == StringWidth(rw, row.cells[c].text)
      ensures |widths| == |columns|
      ensures l in TableLines(widths) && (l.Header? || l.Divider? || l.RowLine?) ==>
        StringWidth(rw, l.text) <= Terminal(detected)
    {
      TableAligned(detected, widths, l);
      LineTakes(detected, widths);
      BodyIsLine(widths);
    }

    method BuildDivider(widths: array<int>) returns (lines: seq<Line>)
      requires padding >= 0
      ensures lines == DividerLines(widths[..])
    {
      if !showDivider {
        return [];
      }
      var total := Total(widths, widths.Length);
      return [Divider(indent + Repeat('─', Max(0, total + (widths.Length - 1) * padding)))];
    }

    /** What the footer says, after the rows of the page. */
    method BuildFooter() returns (lines: seq<Line>)
      ensures lines == FooterLines(|rows|, page, limit)
    {
      if limit <= 0 {
        return [];
      }
      var current := if page < 1 then 1 else page;
      var total := |rows|;
      var pages := 1;
      if total > 0 {
        pages := (total + limit - 1) / limit;
      }
      var start := (current - 1) * limit;
      if total == 0 {
        return [Footer(NoRows)];
      }
      if start >= total {
        return [Footer(PastEnd(page, pages, total))];
      }
      var end := start + limit;
      if end > total {
        end := total;
      }
      return [Footer(Showing(start + 1, end, total, page, pages))];
    }

    method BuildLines(ws: array<int>) returns (lines: seq<Line>)
      requires padding >= 0 && ws.Length == |columns|
      ensures lines == TableLines(ws[..])
    {
      var widths := ws[..];
      var parts := BuildHeader(rw, columns, widths);
      var divider := BuildDivider(ws);
      var body := BuildBody(rw, columns, PageRows(rows, page, limit), widths, indent, padding,
                            DetailOffset(widths, detailColumn, padding));
      lines := [Header(indent + Join(parts, Repeat(' ', padding)))] + divider + body;
    }

    /** Render: the lines in the order they are written. */
    method Render(detected: int) returns (lines: seq<Line>, widths: seq<int>)
      requires padding >= 0
      ensures |columns| == 0 ==> lines == []
      ensures |columns| > 0 ==>
        && IsLayout(detected, widths) && |widths| == |columns|
        && lines == TableLines(widths) + FooterLines(|rows|, page, limit)
    {
      if |columns| == 0 {
        return [], [];
      }
      var ws := CalculateWidths(detected);
      var top := BuildLines(ws);
      var footer := BuildFooter();
      return top + footer, ws[..];
    }

    lemma TopAligned(widths: seq<int>, l: Line)
      requires PlainRunes(rw) && |widths| == |columns| >= 1 && padding >= 0
      requires forall c :: 0 <= c < |widths| ==> widths[c] >= 0
      requires l == HeaderLine(widths) || l in DividerLines(widths)
      ensures (l.Header? || l.Divider?) && StringWidth(rw, l.text) == BodyWidth(rw, indent, widths, padding)
    {
      HeaderWidth(rw, columns, widths, indent, padding);
      DividerWidth(rw, widths, indent, padding);
    }

    lemma LinesAligned(widths: seq<int>, l: Line)
      requires PlainRunes(rw) && |widths| == |columns| >= 1 && padding >= 0
      requires forall c :: 0 <= c < |widths| ==> widths[c] >= 0
      requires forall row, c :: row in rows && 0 <= c < |row.cells| && row.cells[c].styled != "" ==>
        StringWidth(rw, row.cells[c].styled) == StringWidth(rw, row.cells[c].text)
      requires l in TableLines(widths)
      ensures l.Detail? ||
        ((l.Header? || l.Divider? || l.RowLine?) && StringWidth(rw, l.text) == BodyWidth(rw, indent, widths, padding))
    {
      var shown, offset := PageRows(rows, page, limit), DetailOffset(widths, detailColumn, padding);
      if l in BodyLines(rw, columns, shown, widths, indent, padding, offset) {
        assert forall row :: row in shown ==> row in rows;
        BodyAligned(rw, columns, shown, widths, indent, padding, offset, l);
      } else {
        TopAligned(widths, l);
      }
    }

    /** Header, divider and row lines of a rendered table are as wide as its body, for any texts and any row
        lengths, as long as explicitly styled cells show as wide as their plain text. */
    lemma TableAligned(detected: int, widths: seq<int>, l: Line)
      requires PlainRunes(rw) && |columns| >= 1 && padding >= 0 && IsLayout(detected, widths)
      requires forall row, c :: row in rows && 0 <= c < |row.cells| && row.cells[c].styled != "" ==>
        StringWidth(rw, row.cells[c].styled) == StringWidth(rw, row.cells[c].text)
      ensures |widths| == |columns|
      ensures l in TableLines(widths) && (l.Header? || l.Divider? || l.RowLine?) ==>
        StringWidth(rw, l.text) == BodyWidth(rw, indent, widths, padding)
    {
      var available := Available(|columns|, termWidth, detected, StringWidth(rw, indent), padding);
      LayoutNonNegative(rw, columns, rows, available, widths);
      if l in TableLines(widths) {
        LinesAligned(widths, l);
      }
    }
  }
}
