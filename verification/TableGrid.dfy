/** Table grids: the size caps (src/mapping/builder.h), laying span cells out
    (`fill_span_table`, src/mapping/layout.cpp), and the stamping loops that
    `parse_otsl_grid` (src/mapping/otsl.cpp) shares with it. */
module Grids {
  import opened Common

  const MAX_ROWS: nat := 2000            // kMaxTableRows
  const MAX_COLS: nat := 250             // kMaxTableCols
  const MAX_CELLS: nat := 50000          // kMaxTableCells
  const MAX_BYTES: nat := 32 * 1024 * 1024  // kMaxGridBytes

  datatype Content = Content(text: string, columnHeader: bool, rowHeader: bool, rowSection: bool)

  /** A table cell with half-open row and column ranges. */
  datatype Cell = Cell(top: nat, left: nat, bottom: nat, right: nat, content: Content)

  /** Sizes of serialised cells are left open. */
  type Size = Cell -> nat

  function Blank(r: nat, c: nat): Cell {
    Cell(r, c, r + 1, c + 1, Content("", false, false, false))
  }

  predicate Covers(x: Cell, r: nat, c: nat) {
    x.top <= r < x.bottom && x.left <= c < x.right
  }

  // ---- the kept part of a table ------------------------------------------

  /** The leading part of a source table: inside every cap, and a row shorter than
      the source only where one more row would break a cap. */
  function KeptShape(rows: nat, cols: nat): (kept: (nat, nat))
    ensures kept.0 <= rows && kept.1 <= cols && kept.0 <= MAX_ROWS && kept.1 <= MAX_COLS
    ensures kept.0 * kept.1 <= MAX_CELLS
    ensures kept.1 < cols ==> kept.1 == MAX_COLS
    ensures kept.0 < rows ==> kept.0 == MAX_ROWS || (kept.0 + 1) * kept.1 > MAX_CELLS
    ensures rows > 0 ==> kept.0 > 0
  {
    var keptCols := Least(cols, MAX_COLS);
    var keptRows := Least(rows, MAX_ROWS);
    if keptCols > 0 then
      CapFits(keptCols);
      (Least(keptRows, MAX_CELLS / keptCols), keptCols)
    else (keptRows, keptCols)
  }

  lemma {:induction false} CapFits(cols: nat)
    requires 0 < cols <= MAX_COLS
    ensures var q := MAX_CELLS / cols;
            q > 0 && (q + 1) * cols > MAX_CELLS && forall n: nat :: n <= q ==> n * cols <= MAX_CELLS
  {
    var q := MAX_CELLS / cols;
    assert q * cols <= MAX_CELLS;
    forall n: nat | n <= q ensures n * cols <= MAX_CELLS {
      assert n * cols <= q * cols;
    }
  }

  // ---- what a grid position holds ----------------------------------------

  /** The last cell in order that covers a position, or its own empty cell. */
  function LastCover(cells: seq<Cell>, r: nat, c: nat): Cell {
    if cells == [] then Blank(r, c)
    else
      var last := cells[|cells| - 1];
      if Covers(last, r, c) then last else LastCover(cells[..|cells| - 1], r, c)
  }

  lemma {:induction false} LastCoverIs(cells: seq<Cell>, r: nat, c: nat, i: nat)
    requires i < |cells| && Covers(cells[i], r, c) && forall j :: i < j < |cells| ==> !Covers(cells[j], r, c)
    ensures LastCover(cells, r, c) == cells[i]
    decreases |cells|
  {
    if i < |cells| - 1 {
      LastCoverIs(cells[..|cells| - 1], r, c, i);
    }
  }

  lemma {:induction false} NothingCovers(cells: seq<Cell>, r: nat, c: nat)
    requires forall j :: 0 <= j < |cells| ==> !Covers(cells[j], r, c)
    ensures LastCover(cells, r, c) == Blank(r, c)
    decreases |cells|
  {
    if cells != [] {
      NothingCovers(cells[..|cells| - 1], r, c);
    }
  }

  predicate AnchoredBefore(x: Cell, y: Cell) {
    x.top < y.top || (x.top == y.top && x.left < y.left)
  }

  /** Cells in strict row-major order of their anchors, none of them empty. */
  ghost predicate RowMajor(cells: seq<Cell>) {
    && (forall i :: 0 <= i < |cells| ==> cells[i].top < cells[i].bottom && cells[i].left < cells[i].right)
    && (forall i, j :: 0 <= i < j < |cells| ==> AnchoredBefore(cells[i], cells[j]))
  }

  /** Every cell shows at its own anchor, overlapping spans or not. */
  lemma {:induction false} VisibleAtAnchor(cells: seq<Cell>, x: Cell)
    requires RowMajor(cells) && x in cells
    ensures LastCover(cells, x.top, x.left) == x
  {
    var i :| 0 <= i < |cells| && cells[i] == x;
    forall j | i < j < |cells| ensures !Covers(cells[j], x.top, x.left) {
      assert AnchoredBefore(cells[i], cells[j]);
    }
    LastCoverIs(cells, x.top, x.left, i);
  }

  // ---- copy cost ---------------------------------------------------------

  function Area(x: Cell): nat {
    if x.top <= x.bottom && x.left <= x.right then (x.bottom - x.top) * (x.right - x.left) else 0
  }

  function Cost(cells: seq<Cell>, size: Size): nat {
    if cells == [] then 0
    else Cost(cells[..|cells| - 1], size) + Area(cells[|cells| - 1]) * size(cells[|cells| - 1])
  }

  lemma {:induction false} CostGrows(cells: seq<Cell>, size: Size, k: nat)
    requires k <= |cells|
    ensures Cost(cells[..k], size) <= Cost(cells, size)
    decreases |cells|
  {
    if k < |cells| {
      assert cells[..|cells| - 1][..k] == cells[..k];
      CostGrows(cells[..|cells| - 1], size, k);
    } else {
      assert cells[..k] == cells;
    }
  }

  /** The counting loop, which stops as soon as the budget is passed. */
  method Affordable(cells: seq<Cell>, size: Size) returns (ok: bool)
    ensures ok <==> Cost(cells, size) <= MAX_BYTES
  {
    var bytes: nat := 0;
    var k := 0;
    while k < |cells|
      invariant k <= |cells| && bytes == Cost(cells[..k], size) <= MAX_BYTES
    {
      assert cells[..k + 1][..k] == cells[..k];
      bytes := bytes + Area(cells[k]) * size(cells[k]);
      if bytes > MAX_BYTES {
        CostGrows(cells, size, k + 1);
        return false;
      }
      k := k + 1;
    }
    assert cells[..k] == cells;
    return true;
  }

  // ---- stamping ----------------------------------------------------------

  type Grid = seq<seq<Cell>>

  ghost predicate Rectangular(grid: Grid, R: nat, C: nat) {
    |grid| == R && forall r :: 0 <= r < R ==> |grid[r]| == C
  }

  /** A full grid whose every position holds the last cell covering it. */
  ghost predicate Shows(grid: Grid, cells: seq<Cell>, R: nat, C: nat) {
    && Rectangular(grid, R, C)
    && forall r, c :: 0 <= r < R && 0 <= c < C ==> grid[r][c] == LastCover(cells, r, c)
  }

  method BlankGrid(R: nat, C: nat) returns (grid: Grid)
    ensures Shows(grid, [], R, C)
  {
    grid := [];
    for r := 0 to R
      invariant Shows(grid, [], r, C)
    {
      var row: seq<Cell> := [];
      for c := 0 to C
        invariant |row| == c && forall k :: 0 <= k < c ==> row[k] == Blank(r, k)
      {
        row := row + [Blank(r, c)];
      }
      grid := grid + [row];
    }
  }

  /** Copies one cell onto every position its span covers. */
  method Stamp(before: Grid, ghost cells: seq<Cell>, x: Cell, R: nat, C: nat) returns (grid: Grid)
    requires Shows(before, cells, R, C) && x.top <= x.bottom <= R && x.left <= x.right <= C
    ensures Shows(grid, cells + [x], R, C)
  {
    grid := before;
    for r := x.top to x.bottom
      invariant Rectangular(grid, R, C)
      invariant forall i, j :: 0 <= i < R && 0 <= j < C ==>
                  grid[i][j] == if i < r && Covers(x, i, j) then x else before[i][j]
    {
      for c := x.left to x.right
        invariant Rectangular(grid, R, C)
        invariant forall i, j :: 0 <= i < R && 0 <= j < C ==>
                    grid[i][j] == if (i < r || (i == r && j < c)) && Covers(x, i, j) then x else before[i][j]
      {
        grid := grid[r := grid[r][c := x]];
      }
    }
    assert (cells + [x])[..|cells|] == cells;
  }

  method StampAll(cells: seq<Cell>, R: nat, C: nat) returns (grid: Grid)
    requires forall i :: 0 <= i < |cells| ==>
               cells[i].top <= cells[i].bottom <= R && cells[i].left <= cells[i].right <= C
    ensures Shows(grid, cells, R, C)
  {
    grid := BlankGrid(R, C);
    for k := 0 to |cells|
      invariant Shows(grid, cells[..k], R, C)
    {
      grid := Stamp(grid, cells[..k], cells[k], R, C);
      assert cells[..k] + [cells[k]] == cells[..k + 1];
    }
    assert cells[..|cells|] == cells;
  }

  // ---- laying out span cells ---------------------------------------------

  datatype SpanCell = SpanCell(row: nat, col: nat, w: nat, h: nat, text: string, columnHeader: bool, rowHeader: bool)
  datatype TableData = TableData(rows: nat, cols: nat, cells: seq<Cell>, grid: Grid)
  datatype TableCut = TableCut(sourceRows: nat, sourceCols: nat, truncated: bool, gridOmitted: bool)

  predicate Extent(cells: seq<SpanCell>, rows: nat, cols: nat) {
    && (forall i :: 0 <= i < |cells| ==> cells[i].row + cells[i].h <= rows && cells[i].col + cells[i].w <= cols)
    && (rows == 0 || exists i :: 0 <= i < |cells| && cells[i].row + cells[i].h == rows)
    && (cols == 0 || exists i :: 0 <= i < |cells| && cells[i].col + cells[i].w == cols)
  }

  /** A source cell cut to the kept part of the table. */
  function Cut(x: SpanCell, R: nat, C: nat): Cell {
    Cell(x.row, x.col, Least(x.row + x.h, R), Least(x.col + x.w, C),
      Content(x.text, x.columnHeader, x.rowHeader, false))
  }

  predicate Kept(x: SpanCell, R: nat, C: nat) {
    x.row < R && x.col < C
  }

  function KeptCells(cells: seq<SpanCell>, R: nat, C: nat): seq<Cell> {
    if cells == [] then []
    else
      var rest, x := KeptCells(cells[..|cells| - 1], R, C), cells[|cells| - 1];
      if Kept(x, R, C) then rest + [Cut(x, R, C)] else rest
  }

  lemma {:induction false} KeptCellsAre(cells: seq<SpanCell>, R: nat, C: nat)
    ensures forall y :: y in KeptCells(cells, R, C) <==>
            exists i :: 0 <= i < |cells| && Kept(cells[i], R, C) && y == Cut(cells[i], R, C)
    decreases |cells|
  {
    if cells != [] {
      var n := |cells| - 1;
      KeptCellsAre(cells[..n], R, C);
      forall i | 0 <= i < |cells| && Kept(cells[i], R, C) ensures Cut(cells[i], R, C) in KeptCells(cells, R, C) {
        if i < n {
          assert cells[..n][i] == cells[i];
        }
      }
      forall y | y in KeptCells(cells, R, C)
        ensures exists i :: 0 <= i < |cells| && Kept(cells[i], R, C) && y == Cut(cells[i], R, C)
      {
        if y in KeptCells(cells[..n], R, C) {
          var i :| 0 <= i < n && Kept(cells[..n][i], R, C) && y == Cut(cells[..n][i], R, C);
          assert cells[i] == cells[..n][i];
        } else {
          assert y == Cut(cells[n], R, C);
        }
      }
    }
  }

  lemma {:induction false} KeptCellsFit(cells: seq<SpanCell>, R: nat, C: nat)
    ensures forall i :: 0 <= i < |KeptCells(cells, R, C)| ==>
              var y := KeptCells(cells, R, C)[i];
              y.top <= y.bottom <= R && y.left <= y.right <= C
  {
    var kept := KeptCells(cells, R, C);
    KeptCellsAre(cells, R, C);
    forall i | 0 <= i < |kept| ensures kept[i].top <= kept[i].bottom <= R && kept[i].left <= kept[i].right <= C {
      assert kept[i] in kept;
    }
  }

  /** Lays the cells out as table data. */
  method FillSpanTable(cells: seq<SpanCell>, size: Size) returns (data: TableData, cut: TableCut)
    ensures Extent(cells, cut.sourceRows, cut.sourceCols)
    ensures (data.rows, data.cols) == KeptShape(cut.sourceRows, cut.sourceCols)
    ensures cut.truncated <==> data.rows < cut.sourceRows || data.cols < cut.sourceCols
    ensures data.cells == KeptCells(cells, data.rows, data.cols)
    ensures cut.gridOmitted <==> Cost(data.cells, size) > MAX_BYTES
    ensures if cut.gridOmitted then data.grid == [] else Shows(data.grid, data.cells, data.rows, data.cols)
  {
    var rows: nat, cols: nat := 0, 0;
    for k := 0 to |cells|
      invariant Extent(cells[..k], rows, cols)
    {
      ghost var done := cells[..k];
      var x := cells[k];
      ghost var oldRows, oldCols := rows, cols;
      rows := if rows < x.row + x.h then x.row + x.h else rows;
      cols := if cols < x.col + x.w then x.col + x.w else cols;
      ExtentGrows(done, x, oldRows, oldCols);
      assert cells[..k + 1] == done + [x];
    }
    assert cells[..|cells|] == cells;
    var shape := KeptShape(rows, cols);
    var R, C := shape.0, shape.1;
    var kept: seq<Cell> := [];
    for k := 0 to |cells|
      invariant kept == KeptCells(cells[..k], R, C)
    {
      assert cells[..k + 1][..k] == cells[..k];
      if Kept(cells[k], R, C) {
        kept := kept + [Cut(cells[k], R, C)];
      }
    }
    KeptCellsFit(cells, R, C);
    var affordable := Affordable(kept, size);
    var grid: Grid := [];
    if affordable {
      grid := StampAll(kept, R, C);
    }
    data := TableData(R, C, kept, grid);
    cut := TableCut(rows, cols, R < rows || C < cols, !affordable);
  }

  lemma {:induction false} ExtentGrows(done: seq<SpanCell>, x: SpanCell, rows: nat, cols: nat)
    requires Extent(done, rows, cols)
    ensures Extent(done + [x],
                   if rows < x.row + x.h then x.row + x.h else rows,
                   if cols < x.col + x.w then x.col + x.w else cols)
  {
    var all := done + [x];
    assert all[|done|] == x;
    if exists i :: 0 <= i < |done| && done[i].row + done[i].h == rows {
      var i :| 0 <= i < |done| && done[i].row + done[i].h == rows;
      assert all[i].row + all[i].h == rows;
    }
    if exists i :: 0 <= i < |done| && done[i].col + done[i].w == cols {
      var i :| 0 <= i < |done| && done[i].col + done[i].w == cols;
      assert all[i].col + all[i].w == cols;
    }
  }

  // ---- what a reader of the grid can rely on -----------------------------

  ghost predicate SourceRowMajor(cells: seq<SpanCell>) {
    && (forall i :: 0 <= i < |cells| ==> cells[i].w >= 1 && cells[i].h >= 1)
    && (forall i, j :: 0 <= i < j < |cells| ==>
          cells[i].row < cells[j].row || (cells[i].row == cells[j].row && cells[i].col < cells[j].col))
  }

  lemma {:induction false} KeptCellsRowMajor(cells: seq<SpanCell>, R: nat, C: nat)
    requires SourceRowMajor(cells)
    ensures RowMajor(KeptCells(cells, R, C))
    decreases |cells|
  {
    if cells != [] {
      var n := |cells| - 1;
      KeptCellsRowMajor(cells[..n], R, C);
      KeptCellsAre(cells[..n], R, C);
      var rest := KeptCells(cells[..n], R, C);
      forall k | 0 <= k < |rest| ensures AnchoredBefore(rest[k], Cut(cells[n], R, C)) {
        assert rest[k] in rest;
      }
    }
  }

  /** In a table whose cells come in strict row-major order, every emitted grid
      shows every cell inside the caps at that cell's own anchor. */
  lemma {:induction false} EveryKeptCellIsVisible(cells: seq<SpanCell>, data: TableData, i: nat)
    requires SourceRowMajor(cells) && i < |cells| && Kept(cells[i], data.rows, data.cols)
    requires data.cells == KeptCells(cells, data.rows, data.cols) && Shows(data.grid, data.cells, data.rows, data.cols)
    ensures var x := cells[i];
            data.grid[x.row][x.col] ==
              Cell(x.row, x.col, Least(x.row + x.h, data.rows), Least(x.col + x.w, data.cols),
                   Content(x.text, x.columnHeader, x.rowHeader, false))
  {
    KeptCellsRowMajor(cells, data.rows, data.cols);
    KeptCellsAre(cells, data.rows, data.cols);
    VisibleAtAnchor(data.cells, Cut(cells[i], data.rows, data.cols));
  }
}

/** Placed markup tables on their grids. */
module TableLayout {
  import opened Common
  import S = Skyline
  import TableOrder
  import opened Grids

  /** Text and header flags put on placed cells. */
  ghost predicate Dressed(cells: seq<SpanCell>, placed: seq<S.Cell>) {
    |cells| == |placed| &&
    forall i :: 0 <= i < |cells| ==> S.Cell(cells[i].row, cells[i].col, cells[i].w, cells[i].h) == placed[i]
  }

  /** For every markup table, with overlapping spans or without: each cell inside
      the caps is what the emitted grid shows at that cell's anchor, and its span
      ends inside its row group. */
  lemma {:induction false} MarkupTableShowsItsCells(children: seq<S.Child>, cells: seq<SpanCell>,
      data: TableData, i: nat)
    requires S.Grouped(S.RowsOf(children)) ==> Dressed(cells, S.Place(S.Items(S.SpansOf(S.RowsOf(children)))).cells)
    requires i < |cells| && Kept(cells[i], data.rows, data.cols)
    requires data.cells == KeptCells(cells, data.rows, data.cols) && Shows(data.grid, data.cells, data.rows, data.cols)
    ensures data.grid[cells[i].row][cells[i].col] == Cut(cells[i], data.rows, data.cols)
    ensures var rows := S.RowsOf(children);
            cells[i].row < |rows| && Cut(cells[i], data.rows, data.cols).bottom <= S.GroupEnd(rows, cells[i].row)
  {
    S.TableIsWellPlaced(children);
    var placed := S.Place(S.Items(S.SpansOf(S.RowsOf(children)))).cells;
    DressedRowMajor(cells, placed);
    DressedCell(cells, placed, i);
    EveryKeptCellIsVisible(cells, data, i);
  }

  /** From the cells of the source to the grid, where nothing is dropped: the n-th cell
      in document order, if its anchor is inside the caps, shows there with its own text
      and header flags, and spans what it asks for inside its section and the caps. */
  lemma {:induction false} MarkupTableShowsTheSource(children: seq<S.Child>, cells: seq<SpanCell>,
        data: TableData, n: nat)
    requires S.Grouped(S.RowsOf(children)) ==>
               var placed := S.Place(S.Items(S.SpansOf(S.RowsOf(children))));
               placed.dropped.None? && Dressed(cells, placed.cells)
    requires n < |TableOrder.SourcesOf(children, TableOrder.RowCount(children))|
    requires data.cells == KeptCells(cells, data.rows, data.cols) && Shows(data.grid, data.cells, data.rows, data.cols)
    ensures var x := TableOrder.SourcesOf(children, TableOrder.RowCount(children))[n];
            n < |cells| && cells[n].row == x.row &&
            (x.row < data.rows && cells[n].col < data.cols ==>
               ShownAs(x, cells[n], data.grid[x.row][cells[n].col], data.rows, data.cols))
  {
    hide S.Place, S.Items, S.SpansOf, S.RowsOf, S.Grouped, TableOrder.SourcesOf, TableOrder.RowCount, KeptCells,
         Shows, TableOrder.Reads, Cut, Dressed, ReadsAs, ShownAs;
    S.RowsAreGrouped(children);
    TableOrder.PlacedInDocumentOrder(children, n);
    var x := TableOrder.SourcesOf(children, TableOrder.RowCount(children))[n];
    DressedReads(cells, S.Place(S.Items(S.SpansOf(S.RowsOf(children)))).cells, n, x);
    if x.row < data.rows && cells[n].col < data.cols {
      MarkupTableShowsItsCells(children, cells, data, n);
      CutReads(cells[n], x, data.rows, data.cols);
    }
  }

  /** What a grid position shows of a cell: its text and flags, its anchor, and the spans
      its source asks for, inside its group and the caps. */
  ghost predicate ShownAs(x: TableOrder.Source, cell: SpanCell, y: Cell, R: nat, C: nat) {
    var height := if x.raw.rowspan < 1 then 1 else x.raw.rowspan;
    && y.content == Content(cell.text, cell.columnHeader, cell.rowHeader, false)
    && y.top == x.row && y.left == cell.col
    && y.right == Least(y.left + (if x.raw.colspan < 1 then 1 else x.raw.colspan), C)
    && y.bottom == Least(if x.raw.rest then x.end else Least(x.row + height, x.end), R)
  }

  /** A cell with the spans its source asks for. */
  ghost predicate ReadsAs(x: TableOrder.Source, cell: SpanCell) {
    TableOrder.Reads(x, S.Cell(cell.row, cell.col, cell.w, cell.h))
  }

  lemma {:induction false} DressedReads(cells: seq<SpanCell>, placed: seq<S.Cell>, n: nat, x: TableOrder.Source)
    requires Dressed(cells, placed) && n < |placed| && TableOrder.Reads(x, placed[n])
    ensures n < |cells| && ReadsAs(x, cells[n]) && cells[n].row == x.row
  {
  }

  lemma {:induction false} CutReads(cell: SpanCell, x: TableOrder.Source, R: nat, C: nat)
    requires ReadsAs(x, cell)
    ensures ShownAs(x, cell, Cut(cell, R, C), R, C)
  {
  }

  lemma {:induction false} DressedRowMajor(cells: seq<SpanCell>, placed: seq<S.Cell>)
    requires Dressed(cells, placed) && S.WellPlaced(placed)
    ensures SourceRowMajor(cells)
  {
    forall i, j | 0 <= i < j < |cells|
      ensures cells[i].row < cells[j].row || (cells[i].row == cells[j].row && cells[i].col < cells[j].col)
    {
      assert S.Before(placed[i], placed[j]);
    }
  }

  lemma {:induction false} DressedCell(cells: seq<SpanCell>, placed: seq<S.Cell>, i: nat)
    requires Dressed(cells, placed) && i < |cells|
    ensures S.Cell(cells[i].row, cells[i].col, cells[i].w, cells[i].h) in placed
  {
    assert placed[i] in placed;
  }
}
