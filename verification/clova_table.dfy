/** The CLOVA OCR table serialiser: the detected cells, each with its origin and
    spans, are laid onto a grid (later cells overwriting earlier ones, positions
    under a span other than its origin marked as covered) and the grid is
    written out as an HTML table. Indices follow Python list indexing, negative
    ones counting from the end. */
module ClovaTable {
  import opened Wrappers
  import opened PySeq
  import opened PyText

  /** A cell of the OCR table: its origin, its spans and its text lines, each line given
      as the `inferText` of its words. */
  datatype Cell = Cell(rowIndex: int, columnIndex: int, rowSpan: int, columnSpan: int, textLines: seq<seq<string>>)

  /** A grid position: untouched (`""`), covered by another cell's span (`None`), or a
      cell's origin with its text and spans. */
  datatype Slot = Empty | Covered | Origin(text: string, rowSpan: int, colSpan: int)

  type Grid = seq<seq<Slot>>

  const Header: string := "<table border=\"1\">\n"
  const Footer: string := "</table>"

  /** The cell's text: the words of its first text line joined by spaces, or "" without lines. */
  function CellText(c: Cell): string {
    if c.textLines == [] then "" else JoinWith(" ", c.textLines[0])
  }

  /** `max(cell["rowIndex"] + cell["rowSpan"] for cell in cells)`. */
  function MaxRow(cells: seq<Cell>): (r: int)
    requires |cells| > 0
    ensures forall k :: 0 <= k < |cells| ==> cells[k].rowIndex + cells[k].rowSpan <= r
    ensures exists k :: 0 <= k < |cells| && cells[k].rowIndex + cells[k].rowSpan == r
  {
    var here := cells[0].rowIndex + cells[0].rowSpan;
    if |cells| == 1 then here
    else
      var rest := MaxRow(cells[1..]);
      assert forall k :: 1 <= k < |cells| ==> cells[k] == cells[1..][k - 1];
      if here >= rest then here else rest
  }

  /** `max(cell["columnIndex"] + cell["columnSpan"] for cell in cells)`. */
  function MaxCol(cells: seq<Cell>): (r: int)
    requires |cells| > 0
    ensures forall k :: 0 <= k < |cells| ==> cells[k].columnIndex + cells[k].columnSpan <= r
    ensures exists k :: 0 <= k < |cells| && cells[k].columnIndex + cells[k].columnSpan == r
  {
    var here := cells[0].columnIndex + cells[0].columnSpan;
    if |cells| == 1 then here
    else
      var rest := MaxCol(cells[1..]);
      assert forall k :: 1 <= k < |cells| ==> cells[k] == cells[1..][k - 1];
      if here >= rest then here else rest
  }

  /** `len(range(n))`. */
  function RangeLength(n: int): nat {
    if n > 0 then n else 0
  }

  /** `[["" for _ in range(m)] for _ in range(n)]`. */
  function InitGrid(n: nat, m: nat): (g: Grid)
    ensures |g| == n && forall i :: 0 <= i < n ==> g[i] == seq(m, _ => Empty)
  {
    seq(n, _ => seq(m, _ => Empty))
  }

  /** `table[r][c] = s`: IndexError when either index is out of range. */
  function Write(g: Grid, r: int, c: int, s: Slot): (res: Result<Grid>)
    ensures res.Ok? <==> ValidIndex(r, |g|) && ValidIndex(c, |g[Norm(r, |g|)]|)
    ensures res.Err? ==> res.error.IndexError?
    ensures res.Ok? ==> var i, j := Norm(r, |g|), Norm(c, |g[Norm(r, |g|)]|);
                        res.value == g[i := g[i][j := s]]
  {
    if !ValidIndex(r, |g|) then Err(IndexError(r))
    else
      var i := Norm(r, |g|);
      if !ValidIndex(c, |g[i]|) then Err(IndexError(c))
      else Ok(g[i := g[i][Norm(c, |g[i]|) := s]])
  }

  /** The marking loops of one cell from row offset `t` and column offset `u` on: every
      position of the span except the origin becomes covered. */
  function CoverFrom(g: Grid, c: Cell, t: nat, u: nat): Result<Grid>
    decreases c.rowSpan - t, c.columnSpan - u
  {
    if t >= c.rowSpan then Ok(g)
    else if u >= c.columnSpan then CoverFrom(g, c, t + 1, 0)
    else
      var r, col := c.rowIndex + t, c.columnIndex + u;
      if r != c.rowIndex || col != c.columnIndex then
        var g' :- Write(g, r, col, Covered);
        CoverFrom(g', c, t, u + 1)
      else CoverFrom(g, c, t, u + 1)
  }

  /** One iteration of the cell loop: place the origin, then mark the span. */
  function PlaceCell(g: Grid, c: Cell): Result<Grid> {
    var g' :- Write(g, c.rowIndex, c.columnIndex, Origin(CellText(c), c.rowSpan, c.columnSpan));
    CoverFrom(g', c, 0, 0)
  }

  /** The cell loop, over the cells in list order. */
  function PlaceCells(g: Grid, cells: seq<Cell>): Result<Grid>
    decreases |cells|
  {
    if cells == [] then Ok(g)
    else
      var g' :- PlaceCell(g, cells[0]);
      PlaceCells(g', cells[1..])
  }

  /** ` rowspan="n"` (or ` colspan="n"`) for a span above 1, nothing otherwise. */
  function SpanAttr(name: string, span: int): string {
    if span > 1 then " " + name + "=\"" + NatToString(span) + "\"" else ""
  }

  /** What one grid position emits. */
  function SlotHtml(s: Slot): string {
    match s
    case Covered => ""
    case Empty => "    <td></td>\n"
    case Origin(text, rowSpan, colSpan) =>
      "    <td" + SpanAttr("rowspan", rowSpan) + SpanAttr("colspan", colSpan) + ">" + text + "</td>\n"
  }

  /** What the positions of one row emit, in order. */
  function SlotsHtml(row: seq<Slot>): string {
    if row == [] then "" else SlotsHtml(row[..|row| - 1]) + SlotHtml(row[|row| - 1])
  }

  /** What the rows emit, in order: each row is one `<tr>` element. */
  function RowHtml(row: seq<Slot>): string {
    "  <tr>\n" + SlotsHtml(row) + "  </tr>\n"
  }

  function RowsHtml(g: Grid): string {
    if g == [] then "" else RowsHtml(g[..|g| - 1]) + RowHtml(g[|g| - 1])
  }

  /** `json_to_html_table(cells)`: ValueError for no cells, IndexError when a cell writes
      outside the grid, otherwise the table's HTML. */
  function TableHtml(cells: seq<Cell>): (r: Result<string>)
    ensures cells == [] ==> r.Err? && r.error.ValueError?
    ensures cells != [] ==>
              (r.Ok? <==> PlaceCells(InitGrid(RangeLength(MaxRow(cells)), RangeLength(MaxCol(cells))), cells).Ok?)
    ensures r.Err? && cells != [] ==> r.error.IndexError?
    ensures r.Ok? ==> |r.value| >= |Header| + |Footer| && r.value[..|Header|] == Header
                      && r.value[|r.value| - |Footer|..] == Footer
  {
    if cells == [] then Err(ValueError("max() arg is an empty sequence"))
    else
      var g := InitGrid(RangeLength(MaxRow(cells)), RangeLength(MaxCol(cells)));
      var placed := PlaceCells(g, cells);
      PlaceCellsErrors(g, cells);
      if placed.Err? then Err(placed.error)
      else
        var html := Header + RowsHtml(placed.value) + Footer;
        assert html[..|Header|] == Header;
        Ok(html)
  }

  /** The grid loops can only fail with IndexError. */
  lemma {:induction false} PlaceCellsErrors(g: Grid, cells: seq<Cell>)
    ensures PlaceCells(g, cells).Err? ==> PlaceCells(g, cells).error.IndexError?
    decreases |cells|
  {
    if cells != [] {
      var first := PlaceCell(g, cells[0]);
      var placed := Write(g, cells[0].rowIndex, cells[0].columnIndex,
                          Origin(CellText(cells[0]), cells[0].rowSpan, cells[0].columnSpan));
      if placed.Ok? {
        CoverFromErrors(placed.value, cells[0], 0, 0);
      }
      if first.Ok? {
        PlaceCellsErrors(first.value, cells[1..]);
      }
    }
  }

  lemma {:induction false} CoverFromErrors(g: Grid, c: Cell, t: nat, u: nat)
    ensures CoverFrom(g, c, t, u).Err? ==> CoverFrom(g, c, t, u).error.IndexError?
    decreases c.rowSpan - t, c.columnSpan - u
  {
    if t < c.rowSpan {
      if u >= c.columnSpan {
        CoverFromErrors(g, c, t + 1, 0);
      } else {
        var r, col := c.rowIndex + t, c.columnIndex + u;
        if r != c.rowIndex || col != c.columnIndex {
          var w := Write(g, r, col, Covered);
          if w.Ok? {
            CoverFromErrors(w.value, c, t, u + 1);
          }
        } else {
          CoverFromErrors(g, c, t, u + 1);
        }
      }
    }
  }

  // ---------------------------------------------------------------- what the grid holds

  /** A grid of `n` rows of `m` positions. */
  predicate Rect(g: Grid, n: nat, m: nat) {
    |g| == n && forall i :: 0 <= i < n ==> |g[i]| == m
  }

  /** A cell whose origin and spans lie inside an `n` by `m` grid, counted from the start. */
  predicate InBounds(c: Cell, n: nat, m: nat) {
    0 <= c.rowIndex && 1 <= c.rowSpan && c.rowIndex + c.rowSpan <= n
    && 0 <= c.columnIndex && 1 <= c.columnSpan && c.columnIndex + c.columnSpan <= m
  }

  /** Whether position (i, j) lies under the cell's span. */
  predicate InSpan(c: Cell, i: int, j: int) {
    c.rowIndex <= i < c.rowIndex + c.rowSpan && c.columnIndex <= j < c.columnIndex + c.columnSpan
  }

  /** What a cell leaves at a position under its span: itself at its origin, covered elsewhere. */
  function Footprint(c: Cell, i: int, j: int): Slot {
    if i == c.rowIndex && j == c.columnIndex then Origin(CellText(c), c.rowSpan, c.columnSpan) else Covered
  }

  /** The last cell of the list whose span holds (i, j), or -1. */
  function LastCover(cells: seq<Cell>, i: int, j: int): (k: int)
    ensures -1 <= k < |cells|
    ensures k >= 0 ==> InSpan(cells[k], i, j)
    ensures forall l :: k < l < |cells| ==> !InSpan(cells[l], i, j)
  {
    if cells == [] then -1
    else
      var k := LastCover(cells[1..], i, j);
      assert forall l :: 1 <= l < |cells| ==> cells[l] == cells[1..][l - 1];
      if k >= 0 then k + 1 else if InSpan(cells[0], i, j) then 0 else -1
  }

  /** Whether the marking loops, at offsets (t, u), have yet to reach (i, j). */
  predicate Pending(c: Cell, t: nat, u: nat, i: int, j: int) {
    InSpan(c, i, j) && (i - c.rowIndex > t || (i - c.rowIndex == t && j - c.columnIndex >= u))
  }

  /** The marking loops of an in-bounds cell never fail, and cover exactly the positions they
      have yet to reach, except the origin. */
  lemma {:induction false} CoverFromEffect(g: Grid, c: Cell, t: nat, u: nat, n: nat, m: nat)
    requires Rect(g, n, m) && InBounds(c, n, m)
    ensures CoverFrom(g, c, t, u).Ok? && Rect(CoverFrom(g, c, t, u).value, n, m)
    ensures forall i, j :: 0 <= i < n && 0 <= j < m ==>
              CoverFrom(g, c, t, u).value[i][j]
                == if Pending(c, t, u, i, j) && !(i == c.rowIndex && j == c.columnIndex) then Covered else g[i][j]
    decreases c.rowSpan - t, c.columnSpan - u
  {
    if t >= c.rowSpan {
    } else if u >= c.columnSpan {
      CoverFromEffect(g, c, t + 1, 0, n, m);
    } else {
      var r, col := c.rowIndex + t, c.columnIndex + u;
      if r != c.rowIndex || col != c.columnIndex {
        var g' := Write(g, r, col, Covered).value;
        CoverFromEffect(g', c, t, u + 1, n, m);
      } else {
        CoverFromEffect(g, c, t, u + 1, n, m);
      }
    }
  }

  /** Placing an in-bounds cell never fails: it leaves its footprint under its span and
      changes nothing else. */
  lemma PlaceCellEffect(g: Grid, c: Cell, n: nat, m: nat)
    requires Rect(g, n, m) && InBounds(c, n, m)
    ensures PlaceCell(g, c).Ok? && Rect(PlaceCell(g, c).value, n, m)
    ensures forall i, j :: 0 <= i < n && 0 <= j < m ==>
              PlaceCell(g, c).value[i][j] == if InSpan(c, i, j) then Footprint(c, i, j) else g[i][j]
  {
    var g' := Write(g, c.rowIndex, c.columnIndex, Origin(CellText(c), c.rowSpan, c.columnSpan)).value;
    CoverFromEffect(g', c, 0, 0, n, m);
  }

  /** Later cells win: after in-bounds cells are placed, each position holds the footprint of
      the last cell whose span holds it, or what it held before when no span does. */
  lemma {:induction false} LaterCellsWin(g: Grid, cells: seq<Cell>, n: nat, m: nat, i: nat, j: nat)
    requires Rect(g, n, m) && i < n && j < m
    requires forall k :: 0 <= k < |cells| ==> InBounds(cells[k], n, m)
    ensures PlaceCells(g, cells).Ok? && Rect(PlaceCells(g, cells).value, n, m)
    ensures var k := LastCover(cells, i, j);
            PlaceCells(g, cells).value[i][j] == if k >= 0 then Footprint(cells[k], i, j) else g[i][j]
    decreases |cells|
  {
    if cells != [] {
      PlaceCellEffect(g, cells[0], n, m);
      var g' := PlaceCell(g, cells[0]).value;
      assert forall l :: 1 <= l < |cells| ==> cells[l] == cells[1..][l - 1];
      LaterCellsWin(g', cells[1..], n, m, i, j);
    }
  }

  /** Cells whose indices count from the start and whose spans are positive never raise
      IndexError: the grid is sized to hold every span. */
  lemma InBoundsCellsNeverFail(cells: seq<Cell>)
    requires cells != []
    requires forall k :: 0 <= k < |cells| ==>
               cells[k].rowIndex >= 0 && cells[k].rowSpan >= 1 && cells[k].columnIndex >= 0 && cells[k].columnSpan >= 1
    ensures TableHtml(cells).Ok?
  {
    var n, m := RangeLength(MaxRow(cells)), RangeLength(MaxCol(cells));
    assert InBounds(cells[0], n, m);
    assert forall k :: 0 <= k < |cells| ==> InBounds(cells[k], n, m);
    LaterCellsWin(InitGrid(n, m), cells, n, m, 0, 0);
  }

  /** A span attribute is written exactly for spans above 1, and its quoted value reads back
      as the span. */
  lemma SpanAttrReadsBack(name: string, span: int)
    ensures SpanAttr(name, span) == "" <==> span <= 1
    ensures span > 1 ==> var a := SpanAttr(name, span);
              |a| >= |name| + 4 && a[..|name| + 3] == " " + name + "=\""
              && a[|a| - 1] == '"' && IsDigits(a[|name| + 3..|a| - 1])
              && DigitsValue(a[|name| + 3..|a| - 1]) == span
  {
    if span > 1 {
      var a := SpanAttr(name, span);
      var digits := NatToString(span);
      assert a == (" " + name + "=\"") + digits + "\"";
      assert a[|name| + 3..|a| - 1] == digits;
      NatToStringRoundTrip(span);
    }
  }

  // ---------------------------------------------------------------- the imperative serialiser

  /** The grid held by the array, row by row. */
  function Rows(a: array2<Slot>): (g: Grid)
    reads a
    ensures |g| == a.Length0 && forall i :: 0 <= i < a.Length0 ==> |g[i]| == a.Length1
    ensures forall i, j :: 0 <= i < a.Length0 && 0 <= j < a.Length1 ==> g[i][j] == a[i, j]
  {
    seq(a.Length0, i requires 0 <= i < a.Length0 reads a => seq(a.Length1, j requires 0 <= j < a.Length1 reads a => a[i, j]))
  }

  /** The grid a step left behind, or the exception it raised. */
  function Outcome(res: Result<()>, g: Grid): Result<Grid> {
    if res.Ok? then Ok(g) else Err(res.error)
  }

  /** `table[r][c] = s` on the array; IndexError when either index is out of range. */
  method WriteSlot(a: array2<Slot>, r: int, c: int, s: Slot) returns (res: Result<()>)
    modifies a
    ensures old(Write(Rows(a), r, c, s)) == Outcome(res, Rows(a))
  {
    if !ValidIndex(r, a.Length0) {
      return Err(IndexError(r));
    }
    if !ValidIndex(c, a.Length1) {
      return Err(IndexError(c));
    }
    var i, j := Norm(r, a.Length0), Norm(c, a.Length1);
    ghost var before := Rows(a);
    ghost var after := before[i := before[i][j := s]];
    a[i, j] := s;
    forall i' | 0 <= i' < a.Length0
      ensures Rows(a)[i'] == after[i']
    {
      assert forall j' | 0 <= j' < a.Length1 :: Rows(a)[i'][j'] == after[i'][j'];
    }
    assert Rows(a) == after;
    return Ok(());
  }

  /** The loops that mark the positions under a cell's span, other than its origin, as covered. */
  method CoverSpan(a: array2<Slot>, cell: Cell) returns (res: Result<()>)
    modifies a
    ensures old(CoverFrom(Rows(a), cell, 0, 0)) == Outcome(res, Rows(a))
  {
    ghost var goal := CoverFrom(Rows(a), cell, 0, 0);
    var t := 0;
    while t < cell.rowSpan
      invariant goal == CoverFrom(Rows(a), cell, t, 0)
      decreases cell.rowSpan - t
    {
      var u := 0;
      while u < cell.columnSpan
        invariant goal == CoverFrom(Rows(a), cell, t, u)
        decreases cell.columnSpan - u
      {
        var row, col := cell.rowIndex + t, cell.columnIndex + u;
        if row != cell.rowIndex || col != cell.columnIndex {
          var covered := WriteSlot(a, row, col, Covered);
          if covered.Err? {
            return covered;
          }
        }
        u := u + 1;
      }
      t := t + 1;
    }
    return Ok(());
  }

  /** One iteration of the cell loop: the origin, then the span. */
  method LayCell(a: array2<Slot>, cell: Cell) returns (res: Result<()>)
    modifies a
    ensures old(PlaceCell(Rows(a), cell)) == Outcome(res, Rows(a))
  {
    res := WriteSlot(a, cell.rowIndex, cell.columnIndex, Origin(CellText(cell), cell.rowSpan, cell.columnSpan));
    if res.Ok? {
      res := CoverSpan(a, cell);
    }
  }

  /** The cell loop. */
  method LayCells(a: array2<Slot>, cells: seq<Cell>) returns (res: Result<()>)
    modifies a
    ensures old(PlaceCells(Rows(a), cells)) == Outcome(res, Rows(a))
  {
    ghost var goal := PlaceCells(Rows(a), cells);
    for k := 0 to |cells|
      invariant goal == PlaceCells(Rows(a), cells[k..])
    {
      assert cells[k..][1..] == cells[k + 1..];
      var placed := LayCell(a, cells[k]);
      if placed.Err? {
        return placed;
      }
    }
    return Ok(());
  }

  /** The emitting loop of one row: a covered position emits nothing, an untouched one an
      empty `<td>`, an origin its text with the spans above 1. */
  method RenderRow(a: array2<Slot>, i: nat, ghost row: seq<Slot>) returns (html: string)
    requires i < a.Length0 && |row| == a.Length1
    requires forall j :: 0 <= j < a.Length1 ==> row[j] == a[i, j]
    ensures html == SlotsHtml(row)
  {
    html := "";
    for j := 0 to a.Length1
      invariant html == SlotsHtml(row[..j])
    {
      assert row[..j + 1][..j] == row[..j] && a[i, j] == row[j];
      var td: string;
      match a[i, j] {
        case Covered =>
          td := "";
        case Empty =>
          td := "    <td></td>\n";
        case Origin(text, rowSpan, colSpan) =>
          td := "    <td" + SpanAttr("rowspan", rowSpan) + SpanAttr("colspan", colSpan) + ">" + text + "</td>\n";
      }
      assert td == SlotHtml(row[j]);
      html := html + td;
    }
    assert row[..a.Length1] == row;
  }

  lemma AppendAssoc<T>(a: seq<T>, b: seq<T>, c: seq<T>)
    ensures a + b + c == a + (b + c)
  {
  }

  lemma RowsHtmlSnoc(g: Grid, i: nat)
    requires i < |g|
    ensures RowsHtml(g[..i + 1]) == RowsHtml(g[..i]) + RowHtml(g[i])
  {
    assert g[..i + 1][..i] == g[..i];
  }

  /** The emitting loops: one `<tr>` element per grid row, in order. */
  method RenderTable(a: array2<Slot>) returns (html: string)
    ensures html == Header + RowsHtml(Rows(a)) + Footer
  {
    html := Header;
    ghost var g := Rows(a);
    for i := 0 to a.Length0
      invariant html == Header + RowsHtml(g[..i])
    {
      var cellsHtml := RenderRow(a, i, g[i]);
      var rowHtml := "  <tr>\n" + cellsHtml + "  </tr>\n";
      assert rowHtml == RowHtml(g[i]);
      RowsHtmlSnoc(g, i);
      AppendAssoc(Header, RowsHtml(g[..i]), rowHtml);
      html := html + rowHtml;
    }
    assert g[..a.Length0] == g;
    html := html + Footer;
  }

  /** `json_to_html_table(cells)`, laying the cells onto a two-dimensional array and
      accumulating the HTML row by row. */
  method JsonToHtmlTable(cells: seq<Cell>) returns (r: Result<string>)
    ensures r == TableHtml(cells)
  {
    if cells == [] {
      return Err(ValueError("max() arg is an empty sequence"));
    }
    var n, m := RangeLength(MaxRow(cells)), RangeLength(MaxCol(cells));
    var table := new Slot[n, m]((_, _) => Empty);
    forall i | 0 <= i < n
      ensures Rows(table)[i] == InitGrid(n, m)[i]
    {
      assert forall j | 0 <= j < m :: Rows(table)[i][j] == InitGrid(n, m)[i][j];
    }
    assert Rows(table) == InitGrid(n, m);
    var placed := LayCells(table, cells);
    if placed.Err? {
      return Err(placed.error);
    }
    var html := RenderTable(table);
    return Ok(html);
  }
}
