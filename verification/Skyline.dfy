/** The two cell placers: the column skyline of `chandra_table_cells`
    (src/mapping/layout.cpp) and the boolean matrix of `deepseek_table_cells`
    (src/mapping/deepseek.cpp), both against a naive placement that looks at
    every cell placed before. */
module Skyline {
  import opened Common

  const MAX_COLUMNS: nat := 1000  // kMaxTableCols * 4

  /** A cell of some row with its span, before it has a column. */
  datatype Item = Item(row: nat, w: nat, h: nat)
  datatype Cell = Cell(row: nat, col: nat, w: nat, h: nat)

  predicate Covers(x: Cell, r: nat, c: nat) {
    x.row <= r < x.row + x.h && x.col <= c < x.col + x.w
  }

  /** Whether one of the cells covers a position. */
  predicate Covered(cells: seq<Cell>, r: nat, c: nat)
    ensures Covered(cells, r, c) <==> exists i :: 0 <= i < |cells| && Covers(cells[i], r, c)
  {
    cells != [] && (Covers(cells[|cells| - 1], r, c) || Covered(cells[..|cells| - 1], r, c))
  }

  function RightEdge(cells: seq<Cell>): (edge: nat)
    ensures forall i :: 0 <= i < |cells| ==> cells[i].col + cells[i].w <= edge
  {
    if cells == [] then 0
    else
      var x, rest := cells[|cells| - 1], RightEdge(cells[..|cells| - 1]);
      if rest < x.col + x.w then x.col + x.w else rest
  }

  /** The first column from `from` on that no cell covers in row `r`. */
  function FirstFree(cells: seq<Cell>, r: nat, from: nat): (c: nat)
    ensures from <= c && !Covered(cells, r, c) && forall x :: from <= x < c ==> Covered(cells, r, x)
    decreases if from < RightEdge(cells) then RightEdge(cells) - from else 0
  {
    if Covered(cells, r, from) then FirstFree(cells, r, from + 1) else from
  }

  lemma {:induction false} FirstFreeIs(cells: seq<Cell>, r: nat, from: nat, c: nat)
    requires from <= c && !Covered(cells, r, c) && forall x :: from <= x < c ==> Covered(cells, r, x)
    ensures FirstFree(cells, r, from) == c
  {
    var f := FirstFree(cells, r, from);
    assert !(f < c);
  }

  /** Where the search for the next column of row `r` starts. */
  function Cursor(cells: seq<Cell>, r: nat): nat {
    if cells != [] && cells[|cells| - 1].row == r then cells[|cells| - 1].col + cells[|cells| - 1].w else 0
  }

  /** Placement so far; `dropped` is the row whose remaining cells are dropped. */
  datatype State = State(cells: seq<Cell>, dropped: Option<nat>)

  function Put(s: State, x: Item): State {
    if s.dropped == Some(x.row) then s
    else
      var c := FirstFree(s.cells, x.row, Cursor(s.cells, x.row));
      if c + x.w > MAX_COLUMNS then s.(dropped := Some(x.row))
      else s.(cells := s.cells + [Cell(x.row, c, x.w, x.h)])
  }

  /** The naive placement of a table's cells, row by row. */
  function Place(items: seq<Item>): State {
    if items == [] then State([], None) else Put(Place(items[..|items| - 1]), items[|items| - 1])
  }

  // ---- what placement guarantees -----------------------------------------

  predicate Before(x: Cell, y: Cell) {
    x.row < y.row || (x.row == y.row && x.col < y.col)
  }

  ghost predicate InRowOrder(items: seq<Item>) {
    && (forall i :: 0 <= i < |items| ==> items[i].w >= 1 && items[i].h >= 1)
    && (forall i, j :: 0 <= i < j < |items| ==> items[i].row <= items[j].row)
  }

  /** Anchors are strictly row-major, no anchor lies in an earlier cell, cells of
      one row do not overlap in it, and no cell leaves the column limit. */
  ghost predicate WellPlaced(cells: seq<Cell>) {
    && (forall i, j :: 0 <= i < j < |cells| ==> Before(cells[i], cells[j]))
    && (forall i, j :: 0 <= i < j < |cells| ==> !Covers(cells[i], cells[j].row, cells[j].col))
    && (forall i, j :: 0 <= i < j < |cells| && cells[i].row == cells[j].row ==>
          cells[i].col + cells[i].w <= cells[j].col)
    && (forall i :: 0 <= i < |cells| ==> cells[i].w >= 1 && cells[i].h >= 1 && cells[i].col + cells[i].w <= MAX_COLUMNS)
  }

  lemma {:induction false} PutIsWellPlaced(s: State, x: Item)
    requires WellPlaced(s.cells) && x.w >= 1 && x.h >= 1
    requires forall i :: 0 <= i < |s.cells| ==> s.cells[i].row <= x.row
    ensures WellPlaced(Put(s, x).cells)
  {
    var c := FirstFree(s.cells, x.row, Cursor(s.cells, x.row));
    var y := Cell(x.row, c, x.w, x.h);
    hide Covered, FirstFree;
    forall i | 0 <= i < |s.cells|
      ensures Before(s.cells[i], y) && !Covers(s.cells[i], y.row, y.col)
      ensures s.cells[i].row == y.row ==> s.cells[i].col + s.cells[i].w <= y.col
    {
      UncoveredBy(s.cells, y.row, y.col, i);
      var last := s.cells[|s.cells| - 1];
      assert i < |s.cells| - 1 ==> Before(s.cells[i], last);
    }
  }

  lemma {:induction false} UncoveredBy(cells: seq<Cell>, r: nat, c: nat, i: nat)
    requires i < |cells| && !Covered(cells, r, c)
    ensures !Covers(cells[i], r, c)
  {
  }

  /** Placement of any table is well placed, and places only cells it was given,
      with their own spans. */
  lemma {:induction false} PlacementIsWellPlaced(items: seq<Item>)
    requires InRowOrder(items)
    ensures WellPlaced(Place(items).cells)
    ensures forall x :: x in Place(items).cells ==> Item(x.row, x.w, x.h) in items
    decreases |items|
  {
    if items != [] {
      var n := |items| - 1;
      PlacementIsWellPlaced(items[..n]);
      var s := Place(items[..n]);
      forall i | 0 <= i < |s.cells| ensures s.cells[i].row <= items[n].row {
        assert s.cells[i] in s.cells;
        var k :| 0 <= k < n && items[..n][k] == Item(s.cells[i].row, s.cells[i].w, s.cells[i].h);
        assert items[k].row <= items[n].row;
      }
      hide WellPlaced, FirstFree;
      PutIsWellPlaced(s, items[n]);
      forall x | x in Place(items).cells ensures Item(x.row, x.w, x.h) in items {
        if x in s.cells {
          assert Item(x.row, x.w, x.h) in items[..n];
        }
      }
    }
  }

  // ---- the skyline -------------------------------------------------------

  function Until(occupied: map<nat, nat>, c: nat): nat {
    if c in occupied then occupied[c] else 0
  }

  /** From row `r` on, a column is occupied past a row exactly when a cell placed
      so far covers that position. */
  ghost predicate SkylineAgrees(occupied: map<nat, nat>, cells: seq<Cell>, r: nat) {
    forall c: nat, q: nat :: r <= q ==> (Until(occupied, c) > q <==> Covered(cells, q, c))
  }

  /** Raising columns col .. col + w - 1 to `until`. */
  function Raise(occupied: map<nat, nat>, col: nat, w: nat, until: nat): map<nat, nat> {
    if w == 0 then occupied
    else
      var before := Raise(occupied, col, w - 1, until);
      var c := col + w - 1;
      before[c := if Until(before, c) < until then until else Until(before, c)]
  }

  lemma {:induction false} RaiseColumns(occupied: map<nat, nat>, col: nat, w: nat, until: nat, c: nat)
    ensures Until(Raise(occupied, col, w, until), c)
         == if col <= c < col + w && Until(occupied, c) < until then until else Until(occupied, c)
    decreases w
  {
    if w > 0 {
      RaiseColumns(occupied, col, w - 1, until, c);
    }
  }

  lemma {:induction false} CoveredAppend(cells: seq<Cell>, x: Cell, r: nat, c: nat)
    ensures Covered(cells + [x], r, c) <==> Covered(cells, r, c) || Covers(x, r, c)
  {
    assert (cells + [x])[..|cells|] == cells;
  }

  lemma {:induction false} RaiseAgrees(occupied: map<nat, nat>, cells: seq<Cell>, x: Cell)
    requires SkylineAgrees(occupied, cells, x.row)
    ensures SkylineAgrees(Raise(occupied, x.col, x.w, x.row + x.h), cells + [x], x.row)
  {
    hide Covered, Raise;
    var raised := Raise(occupied, x.col, x.w, x.row + x.h);
    forall c: nat, q: nat | x.row <= q ensures Until(raised, c) > q <==> Covered(cells + [x], q, c) {
      RaiseColumns(occupied, x.col, x.w, x.row + x.h, c);
      CoveredAppend(cells, x, q, c);
    }
  }

  /** A table as its rows of spans, and the same cells as one list. */
  datatype Span = Span(w: nat, h: nat)

  function RowItems(r: nat, spans: seq<Span>): seq<Item> {
    seq(|spans|, k requires 0 <= k < |spans| => Item(r, spans[k].w, spans[k].h))
  }

  function Items(rows: seq<seq<Span>>): seq<Item> {
    if rows == [] then [] else Items(rows[..|rows| - 1]) + RowItems(|rows| - 1, rows[|rows| - 1])
  }

  lemma {:induction false} PlaceAppend(items: seq<Item>, x: Item)
    ensures Place(items + [x]) == Put(Place(items), x)
  {
    assert (items + [x])[..|items|] == items;
  }

  lemma {:induction false} PlaceAfterDrop(items: seq<Item>, r: nat, spans: seq<Span>)
    requires Place(items).dropped == Some(r)
    ensures Place(items + RowItems(r, spans)) == Place(items)
    decreases |spans|
  {
    if spans == [] {
      assert items + RowItems(r, spans) == items;
    } else {
      var n := |spans| - 1;
      PlaceAfterDrop(items, r, spans[..n]);
      PlaceAppend(items + RowItems(r, spans[..n]), Item(r, spans[n].w, spans[n].h));
      assert items + RowItems(r, spans) == items + RowItems(r, spans[..n]) + [Item(r, spans[n].w, spans[n].h)];
    }
  }

  lemma {:induction false} NoRowItems(before: seq<Item>, r: nat, spans: seq<Span>)
    requires spans == []
    ensures before + RowItems(r, spans) == before
  {
  }

  lemma {:induction false} RowItemsStep(before: seq<Item>, r: nat, spans: seq<Span>, k: nat)
    requires k < |spans|
    ensures before + RowItems(r, spans[..k]) + [Item(r, spans[k].w, spans[k].h)] == before + RowItems(r, spans[..k + 1])
    ensures before + RowItems(r, spans[..k + 1]) + RowItems(r, spans[k + 1..]) == before + RowItems(r, spans)
  {
    assert RowItems(r, spans[..k]) + [Item(r, spans[k].w, spans[k].h)] == RowItems(r, spans[..k + 1]);
    assert RowItems(r, spans[..k + 1]) + RowItems(r, spans[k + 1..]) == RowItems(r, spans);
  }

  /** What the loops know after the cells `done`, the last of them in row `r` or
      before: the naive placement, its skyline, and that row `r` is not dropped. */
  ghost predicate Tracks(done: seq<Item>, r: nat, cells: seq<Cell>, occupied: map<nat, nat>) {
    var s := Place(done);
    && cells == s.cells && (forall i :: 0 <= i < |cells| ==> cells[i].row <= r)
    && SkylineAgrees(occupied, cells, r)
    && (s.dropped.Some? ==> s.dropped.value < r)
  }

  lemma {:induction false} PutTracks(done: seq<Item>, x: Item, cells: seq<Cell>, occupied: map<nat, nat>)
    requires Tracks(done, x.row, cells, occupied)
    ensures var c := FirstFree(cells, x.row, Cursor(cells, x.row));
            if c + x.w > MAX_COLUMNS then Place(done + [x]) == State(cells, Some(x.row))
            else Tracks(done + [x], x.row, cells + [Cell(x.row, c, x.w, x.h)], Raise(occupied, c, x.w, x.row + x.h))
  {
    hide Place, FirstFree, SkylineAgrees, Raise;
    PlaceAppend(done, x);
    RaiseAgrees(occupied, cells, Cell(x.row, FirstFree(cells, x.row, Cursor(cells, x.row)), x.w, x.h));
  }

  lemma {:induction false} NextRow(done: seq<Item>, r: nat, cells: seq<Cell>, occupied: map<nat, nat>)
    requires Tracks(done, r, cells, occupied)
    ensures Tracks(done, r + 1, cells, occupied) && Cursor(cells, r + 1) == 0
  {
  }

  lemma {:induction false} DroppedRow(done: seq<Item>, all: seq<Item>, r: nat, cells: seq<Cell>,
      occupied: map<nat, nat>)
    requires Tracks(done, r, cells, occupied) && Place(all) == State(cells, Some(r))
    ensures Tracks(all, r + 1, cells, occupied) && Cursor(cells, r + 1) == 0
  {
  }

  lemma {:induction false} CursorAfter(cells: seq<Cell>, x: Cell)
    ensures Cursor(cells + [x], x.row) == x.col + x.w
  {
  }

  lemma {:induction false} TracksAgrees(done: seq<Item>, r: nat, cells: seq<Cell>, occupied: map<nat, nat>)
    requires Tracks(done, r, cells, occupied)
    ensures SkylineAgrees(occupied, cells, r)
  {
  }

  /** The placement loop over the skyline map, as the source writes it. */
  method PlaceOnSkyline(rows: seq<seq<Span>>) returns (cells: seq<Cell>)
    ensures cells == Place(Items(rows)).cells
  {
    cells := [];
    var occupied: map<nat, nat> := map[];
    var r := 0;
    while r < |rows|
      invariant r <= |rows| && Tracks(Items(rows[..r]), r, cells, occupied) && Cursor(cells, r) == 0
    {
      cells, occupied := PlaceRow(Items(rows[..r]), r, rows[r], cells, occupied);
      assert rows[..r + 1][..r] == rows[..r];
      r := r + 1;
    }
    assert rows[..r] == rows;
  }

  method PlaceRow(ghost before: seq<Item>, r: nat, spans: seq<Span>, placed: seq<Cell>, skyline: map<nat, nat>)
      returns (cells: seq<Cell>, occupied: map<nat, nat>)
    requires Tracks(before, r, placed, skyline) && Cursor(placed, r) == 0
    ensures Tracks(before + RowItems(r, spans), r + 1, cells, occupied) && Cursor(cells, r + 1) == 0
  {
    hide Place, SkylineAgrees, Covered, FirstFree, RowItems, Raise, Tracks, Cursor;
    cells, occupied := placed, skyline;
    var col, k := 0, 0;
    ghost var done := before;
    NoRowItems(before, r, spans[..0]);
    while k < |spans|
      invariant k <= |spans| && done == before + RowItems(r, spans[..k])
      invariant Tracks(done, r, cells, occupied) && col == Cursor(cells, r)
    {
      TracksAgrees(done, r, cells, occupied);
      col := NextFree(occupied, cells, r, col);
      ghost var x := Item(r, spans[k].w, spans[k].h);
      PutTracks(done, x, cells, occupied);
      RowItemsStep(before, r, spans, k);
      if col + spans[k].w > MAX_COLUMNS {
        PlaceAfterDrop(done + [x], r, spans[k + 1..]);
        DroppedRow(done, before + RowItems(r, spans), r, cells, occupied);
        return;
      }
      occupied := RaiseLoop(occupied, col, spans[k].w, r + spans[k].h);
      CursorAfter(cells, Cell(r, col, spans[k].w, spans[k].h));
      cells := cells + [Cell(r, col, spans[k].w, spans[k].h)];
      col := col + spans[k].w;
      done := done + [x];
      k := k + 1;
    }
    assert spans[..k] == spans;
    NextRow(done, r, cells, occupied);
  }

  /** Skipping occupied columns. */
  method NextFree(occupied: map<nat, nat>, ghost cells: seq<Cell>, r: nat, from: nat) returns (col: nat)
    requires SkylineAgrees(occupied, cells, r)
    ensures col == FirstFree(cells, r, from)
  {
    col := from;
    while col in occupied && occupied[col] > r
      invariant from <= col && forall x :: from <= x < col ==> Covered(cells, r, x)
      decreases if col < RightEdge(cells) then RightEdge(cells) - col else 0
    {
      assert Until(occupied, col) > r && Covered(cells, r, col);
      col := col + 1;
    }
    assert !(Until(occupied, col) > r);
    FirstFreeIs(cells, r, from, col);
  }

  method RaiseLoop(skyline: map<nat, nat>, col: nat, w: nat, until: nat) returns (occupied: map<nat, nat>)
    ensures occupied == Raise(skyline, col, w, until)
  {
    occupied := skyline;
    var c := col;
    while c < col + w
      invariant col <= c <= col + w && occupied == Raise(skyline, col, c - col, until)
    {
      var current := if c in occupied then occupied[c] else 0;
      occupied := occupied[c := if current < until then until else current];
      c := c + 1;
    }
  }

  // ---- the boolean matrix ------------------------------------------------

  /** Placement in an R x C matrix: spans stop at the matrix edge, and a row's
      remaining cells are dropped once no free column is left. */
  function PutM(s: State, x: Item, R: nat, C: nat): State {
    if s.dropped == Some(x.row) then s
    else
      var c := FirstFree(s.cells, x.row, Cursor(s.cells, x.row));
      if c >= C || x.row >= R then s.(dropped := Some(x.row))
      else s.(cells := s.cells + [Cell(x.row, c, Least(x.w, C - c), Least(x.h, R - x.row))])
  }

  function PlaceM(items: seq<Item>, R: nat, C: nat): State {
    if items == [] then State([], None) else PutM(PlaceM(items[..|items| - 1], R, C), items[|items| - 1], R, C)
  }

  function RowWidth(spans: seq<Span>): nat {
    if spans == [] then 0 else RowWidth(spans[..|spans| - 1]) + spans[|spans| - 1].w
  }

  function WidestRow(rows: seq<seq<Span>>): (widest: nat)
    ensures forall r :: 0 <= r < |rows| ==> RowWidth(rows[r]) <= widest
    ensures widest == 0 || exists r :: 0 <= r < |rows| && RowWidth(rows[r]) == widest
  {
    if rows == [] then 0
    else
      var rest, w := WidestRow(rows[..|rows| - 1]), RowWidth(rows[|rows| - 1]);
      if rest < w then w else rest
  }

  /** The matrix width: the widest row's spans added up, capped. */
  function MatrixColumns(rows: seq<seq<Span>>): nat {
    Least(WidestRow(rows), MAX_COLUMNS)
  }

  lemma {:induction false} PlaceMAppend(items: seq<Item>, x: Item, R: nat, C: nat)
    ensures PlaceM(items + [x], R, C) == PutM(PlaceM(items, R, C), x, R, C)
  {
    assert (items + [x])[..|items|] == items;
  }

  lemma {:induction false} PlaceMAfterDrop(items: seq<Item>, r: nat, spans: seq<Span>, R: nat, C: nat)
    requires PlaceM(items, R, C).dropped == Some(r)
    ensures PlaceM(items + RowItems(r, spans), R, C) == PlaceM(items, R, C)
    decreases |spans|
  {
    if spans == [] {
      assert items + RowItems(r, spans) == items;
    } else {
      var n := |spans| - 1;
      PlaceMAfterDrop(items, r, spans[..n], R, C);
      PlaceMAppend(items + RowItems(r, spans[..n]), Item(r, spans[n].w, spans[n].h), R, C);
      assert items + RowItems(r, spans) == items + RowItems(r, spans[..n]) + [Item(r, spans[n].w, spans[n].h)];
    }
  }

  /** The matrix marks exactly the covered positions. */
  ghost predicate MatrixAgrees(taken: array2<bool>, cells: seq<Cell>)
    reads taken
  {
    forall r, c :: 0 <= r < taken.Length0 && 0 <= c < taken.Length1 ==> (taken[r, c] <==> Covered(cells, r, c))
  }

  ghost predicate Inside(cells: seq<Cell>, R: nat, C: nat) {
    forall i :: 0 <= i < |cells| ==> cells[i].row + cells[i].h <= R && cells[i].col + cells[i].w <= C
  }

  /** What the loops know after the cells `done`: the placement, all of it inside
      the matrix, and that row `r` is not dropped. */
  ghost predicate PlacedM(done: seq<Item>, r: nat, cells: seq<Cell>, R: nat, C: nat) {
    var s := PlaceM(done, R, C);
    && cells == s.cells && (forall i :: 0 <= i < |cells| ==> cells[i].row <= r)
    && Inside(cells, R, C)
    && (s.dropped.Some? ==> s.dropped.value < r)
  }

  lemma {:induction false} PutMTracks(done: seq<Item>, x: Item, cells: seq<Cell>, R: nat, C: nat)
    requires x.row < R && PlacedM(done, x.row, cells, R, C)
    ensures var c := FirstFree(cells, x.row, Cursor(cells, x.row));
            if c >= C then PlaceM(done + [x], R, C) == State(cells, Some(x.row))
            else PlacedM(done + [x], x.row, cells + [Cell(x.row, c, Least(x.w, C - c), Least(x.h, R - x.row))], R, C)
  {
    hide PlaceM, FirstFree;
    PlaceMAppend(done, x, R, C);
  }

  lemma {:induction false} NextMatrixRow(done: seq<Item>, r: nat, cells: seq<Cell>, R: nat, C: nat)
    requires PlacedM(done, r, cells, R, C)
    ensures PlacedM(done, r + 1, cells, R, C) && Cursor(cells, r + 1) == 0
  {
  }

  lemma {:induction false} DroppedMatrixRow(done: seq<Item>, all: seq<Item>, r: nat, cells: seq<Cell>, R: nat, C: nat)
    requires PlacedM(done, r, cells, R, C) && PlaceM(all, R, C) == State(cells, Some(r))
    ensures PlacedM(all, r + 1, cells, R, C) && Cursor(cells, r + 1) == 0
  {
  }

  /** The placement loop over the boolean matrix, as the source writes it. */
  method PlaceOnMatrix(rows: seq<seq<Span>>) returns (cells: seq<Cell>)
    ensures cells == PlaceM(Items(rows), |rows|, MatrixColumns(rows)).cells
  {
    cells := [];
    var C := MatrixColumns(rows);
    var taken := new bool[|rows|, C]((_, _) => false);
    var r := 0;
    while r < |rows|
      invariant r <= |rows| && PlacedM(Items(rows[..r]), r, cells, |rows|, C) && Cursor(cells, r) == 0
      invariant MatrixAgrees(taken, cells)
    {
      cells := PlaceMatrixRow(Items(rows[..r]), r, rows[r], cells, taken);
      assert rows[..r + 1][..r] == rows[..r];
      r := r + 1;
    }
    assert rows[..r] == rows;
  }

  method PlaceMatrixRow(ghost before: seq<Item>, r: nat, spans: seq<Span>, placed: seq<Cell>, taken: array2<bool>)
      returns (cells: seq<Cell>)
    requires r < taken.Length0 && PlacedM(before, r, placed, taken.Length0, taken.Length1)
    requires MatrixAgrees(taken, placed) && Cursor(placed, r) == 0
    modifies taken
    ensures PlacedM(before + RowItems(r, spans), r + 1, cells, taken.Length0, taken.Length1)
    ensures MatrixAgrees(taken, cells) && Cursor(cells, r + 1) == 0
  {
    hide PlaceM, Covered, FirstFree, RowItems, MatrixAgrees, PlacedM, Cursor;
    cells := placed;
    var R, C := taken.Length0, taken.Length1;
    var col: nat, k: nat := 0, 0;
    ghost var done := before;
    NoRowItems(before, r, spans[..0]);
    while k < |spans|
      invariant k <= |spans| && done == before + RowItems(r, spans[..k])
      invariant PlacedM(done, r, cells, R, C) && Least(col, C) == Cursor(cells, r)
      invariant MatrixAgrees(taken, cells)
    {
      col := NextFreeInMatrix(taken, cells, r, col);
      ghost var x := Item(r, spans[k].w, spans[k].h);
      PutMTracks(done, x, cells, R, C);
      RowItemsStep(before, r, spans, k);
      if col >= C {
        PlaceMAfterDrop(done + [x], r, spans[k + 1..], R, C);
        DroppedMatrixRow(done, before + RowItems(r, spans), r, cells, R, C);
        return;
      }
      var cell := Cell(r, col, Least(spans[k].w, C - col), Least(spans[k].h, R - r));
      Mark(taken, cells, cell);
      CursorAfter(cells, cell);
      cells := cells + [cell];
      col := col + spans[k].w;
      done := done + [x];
      k := k + 1;
    }
    assert spans[..k] == spans;
    NextMatrixRow(done, r, cells, R, C);
  }

  method NextFreeInMatrix(taken: array2<bool>, ghost cells: seq<Cell>, r: nat, from: nat) returns (col: nat)
    requires r < taken.Length0 && MatrixAgrees(taken, cells)
    requires Least(from, taken.Length1) == Cursor(cells, r)
    ensures if col < taken.Length1 then col == FirstFree(cells, r, Cursor(cells, r))
            else FirstFree(cells, r, Cursor(cells, r)) >= taken.Length1
  {
    col := from;
    while col < taken.Length1 && taken[r, col]
      invariant from <= col && forall x :: from <= x < col ==> Covered(cells, r, x)
    {
      col := col + 1;
    }
    if col < taken.Length1 {
      FirstFreeIs(cells, r, from, col);
    } else if from <= taken.Length1 {
      assert !(FirstFree(cells, r, from) < taken.Length1);
    }
  }

  method Mark(taken: array2<bool>, ghost cells: seq<Cell>, x: Cell)
    requires MatrixAgrees(taken, cells) && x.row + x.h <= taken.Length0 && x.col + x.w <= taken.Length1
    modifies taken
    ensures MatrixAgrees(taken, cells + [x])
  {
    var r := x.row;
    while r < x.row + x.h
      invariant x.row <= r <= x.row + x.h
      invariant forall i, j :: 0 <= i < taken.Length0 && 0 <= j < taken.Length1 ==>
                  (taken[i, j] <==> old(taken[i, j]) || (i < r && Covers(x, i, j)))
    {
      var c := x.col;
      while c < x.col + x.w
        invariant x.col <= c <= x.col + x.w
        invariant forall i, j :: 0 <= i < taken.Length0 && 0 <= j < taken.Length1 ==>
                    (taken[i, j] <==> old(taken[i, j]) || ((i < r || (i == r && j < c)) && Covers(x, i, j)))
      {
        taken[r, c] := true;
        c := c + 1;
      }
      r := r + 1;
    }
    forall i, j | 0 <= i < taken.Length0 && 0 <= j < taken.Length1
      ensures taken[i, j] <==> Covered(cells + [x], i, j)
    {
      CoveredAppend(cells, x, i, j);
    }
  }

  // ---- both placers choose the same columns ------------------------------

  /** Row spans clipped at the last of `R` rows, as the skyline placer takes
      them from a table without row groups. */
  function ClipItems(items: seq<Item>, R: nat): seq<Item> {
    seq(|items|, k requires 0 <= k < |items| =>
      Item(items[k].row, items[k].w, if items[k].row < R then Least(items[k].h, R - items[k].row) else items[k].h))
  }

  ghost predicate Alike(a: Cell, b: Cell, R: nat, C: nat) {
    && a.row == b.row < R && a.col == b.col < C && b.w == Least(a.w, C - a.col)
    && forall r: nat, c: nat :: r < R && c < C ==> (Covers(a, r, c) <==> Covers(b, r, c))
  }

  ghost predicate AllAlike(a: seq<Cell>, b: seq<Cell>, R: nat, C: nat) {
    |a| == |b| && forall i :: 0 <= i < |a| ==> Alike(a[i], b[i], R, C)
  }

  lemma {:induction false} AlikeCovers(a: seq<Cell>, b: seq<Cell>, R: nat, C: nat, r: nat, c: nat)
    requires AllAlike(a, b, R, C) && r < R && c < C
    ensures Covered(a, r, c) <==> Covered(b, r, c)
  {
    if Covered(a, r, c) {
      var i :| 0 <= i < |a| && Covers(a[i], r, c);
      assert Alike(a[i], b[i], R, C);
    }
    if Covered(b, r, c) {
      var i :| 0 <= i < |b| && Covers(b[i], r, c);
      assert Alike(a[i], b[i], R, C);
    }
  }

  lemma {:induction false} AlikeFirstFree(a: seq<Cell>, b: seq<Cell>, R: nat, C: nat, r: nat)
    requires AllAlike(a, b, R, C) && r < R && FirstFree(b, r, Cursor(b, r)) < C
    ensures FirstFree(a, r, Cursor(a, r)) == FirstFree(b, r, Cursor(b, r))
  {
    hide Covered;
    var from, c := Cursor(b, r), FirstFree(b, r, Cursor(b, r));
    assert |a| > 0 ==> Alike(a[|a| - 1], b[|b| - 1], R, C);
    assert Cursor(a, r) == from;
    AlikeCovers(a, b, R, C, r, c);
    forall x | from <= x < c ensures Covered(a, r, x) {
      AlikeCovers(a, b, R, C, r, x);
    }
    FirstFreeIs(a, r, from, c);
  }

  /** On a table where neither placer drops a cell, the skyline and the matrix
      put every cell in the same place. */
  lemma {:induction false} PlacersAgree(items: seq<Item>, R: nat, C: nat)
    requires forall k :: 0 <= k < |items| ==> items[k].row < R && items[k].w >= 1 && items[k].h >= 1
    requires Place(ClipItems(items, R)).dropped.None? && PlaceM(items, R, C).dropped.None?
    ensures AllAlike(Place(ClipItems(items, R)).cells, PlaceM(items, R, C).cells, R, C)
    ensures |PlaceM(items, R, C).cells| == |items|
    decreases |items|
  {
    if items != [] {
      hide Place, PlaceM, Put, PutM, AllAlike, ClipItems;
      var n := |items| - 1;
      DroppedBefore(items, R, C);
      PlacersAgree(items[..n], R, C);
      OneMoreAlike(Place(ClipItems(items[..n], R)), PlaceM(items[..n], R, C), items[n], R, C);
    } else {
      NoItems(items, R, C);
    }
  }

  lemma {:induction false} NoItems(items: seq<Item>, R: nat, C: nat)
    requires items == []
    ensures Place(ClipItems(items, R)) == State([], None) && PlaceM(items, R, C) == State([], None) &&
            AllAlike([], [], R, C)
  {
  }

  /** Both placements, one item earlier; a dropped row stays recorded. */
  lemma {:induction false} DroppedBefore(items: seq<Item>, R: nat, C: nat)
    requires items != [] && items[|items| - 1].row < R
    ensures var before, x := items[..|items| - 1], items[|items| - 1];
            && Place(ClipItems(items, R)) == Put(Place(ClipItems(before, R)), Item(x.row, x.w, Least(x.h, R - x.row)))
            && PlaceM(items, R, C) == PutM(PlaceM(before, R, C), x, R, C)
            && (Place(ClipItems(before, R)).dropped.Some? ==> Place(ClipItems(items, R)).dropped.Some?)
            && (PlaceM(before, R, C).dropped.Some? ==> PlaceM(items, R, C).dropped.Some?)
  {
    hide FirstFree;
    var n := |items| - 1;
    assert ClipItems(items, R)[..n] == ClipItems(items[..n], R);
  }

  lemma {:induction false} OneMoreAlike(s: State, t: State, x: Item, R: nat, C: nat)
    requires AllAlike(s.cells, t.cells, R, C) && x.row < R && x.w >= 1 && x.h >= 1 && s.dropped.None? && t.dropped.None?
    requires Put(s, Item(x.row, x.w, Least(x.h, R - x.row))).dropped.None? && PutM(t, x, R, C).dropped.None?
    ensures AllAlike(Put(s, Item(x.row, x.w, Least(x.h, R - x.row))).cells, PutM(t, x, R, C).cells, R, C)
    ensures |PutM(t, x, R, C).cells| == |t.cells| + 1
  {
    hide FirstFree, Alike, Cursor;
    AlikeFirstFree(s.cells, t.cells, R, C, x.row);
    ClippedAlike(x, FirstFree(t.cells, x.row, Cursor(t.cells, x.row)), R, C);
  }

  lemma {:induction false} ClippedAlike(x: Item, c: nat, R: nat, C: nat)
    requires x.row < R && c < C
    ensures Alike(Cell(x.row, c, x.w, Least(x.h, R - x.row)),
                  Cell(x.row, c, Least(x.w, C - c), Least(x.h, R - x.row)), R, C)
  {
  }

  // ---- row groups --------------------------------------------------------

  /** A cell's span attributes as numbers (an unreadable one counts as 1);
      `rest` when the row span is written "0". */
  datatype Raw = Raw(colspan: nat, rowspan: nat, rest: bool)
  datatype Child = Tr(cells: seq<Raw>) | Section(rows: seq<seq<Raw>>)
  datatype Row = Row(cells: seq<Raw>, groupEnd: nat)

  const MAX_SPAN: nat := 50000  // kMaxTableCells

  function ClampSpan(number: nat, maximum: nat): nat {
    Least(maximum, if number < 1 then 1 else number)
  }

  /** The rows of a table in order; rows of a section carry the section's end. */
  function RowsOf(children: seq<Child>): seq<Row> {
    if children == [] then []
    else
      var rest := RowsOf(children[..|children| - 1]);
      match children[|children| - 1]
      case Tr(cells) => rest + [Row(cells, 0)]
      case Section(rows) =>
        rest + seq(|rows|, k requires 0 <= k < |rows| => Row(rows[k], |rest| + |rows|))
  }

  /** The end of the group row `r` belongs to. */
  function GroupEnd(rows: seq<Row>, r: nat): nat
    requires r < |rows|
  {
    if rows[r].groupEnd != 0 then rows[r].groupEnd else |rows|
  }

  ghost predicate Grouped(rows: seq<Row>) {
    forall r :: 0 <= r < |rows| && rows[r].groupEnd != 0 ==>
      r < rows[r].groupEnd <= |rows| && forall q :: r <= q < rows[r].groupEnd ==> rows[q].groupEnd == rows[r].groupEnd
  }

  lemma {:induction false} RowsAreGrouped(children: seq<Child>)
    ensures Grouped(RowsOf(children))
    decreases |children|
  {
    if children != [] {
      RowsAreGrouped(children[..|children| - 1]);
    }
  }

  function SpanOf(raw: Raw, remaining: nat): Span {
    Span(ClampSpan(raw.colspan, MAX_SPAN), if raw.rest then remaining else ClampSpan(raw.rowspan, remaining))
  }

  function SpansOf(rows: seq<Row>): seq<seq<Span>>
    requires Grouped(rows)
  {
    seq(|rows|, r requires 0 <= r < |rows| =>
      seq(|rows[r].cells|, k requires 0 <= k < |rows[r].cells| => SpanOf(rows[r].cells[k], GroupEnd(rows, r) - r)))
  }

  lemma {:induction false} ItemsComeFromRows(rows: seq<seq<Span>>)
    ensures forall i, j :: 0 <= i < j < |Items(rows)| ==> Items(rows)[i].row <= Items(rows)[j].row
    ensures forall x :: x in Items(rows) ==> x.row < |rows| && Span(x.w, x.h) in rows[x.row]
    decreases |rows|
  {
    if rows != [] {
      var n := |rows| - 1;
      ItemsComeFromRows(rows[..n]);
      var before, last := Items(rows[..n]), RowItems(n, rows[n]);
      assert forall i :: 0 <= i < |before| ==> before[i] in before;
      forall x | x in Items(rows) ensures x.row < |rows| && Span(x.w, x.h) in rows[x.row] {
        if x in before {
          assert Span(x.w, x.h) in rows[..n][x.row];
        } else {
          var k :| 0 <= k < |last| && last[k] == x;
          assert rows[n][k] == Span(x.w, x.h);
        }
      }
    }
  }

  /** For every table: anchors are strictly row-major and never inside an earlier
      cell, and every span stays in its row group. */
  lemma {:induction false} TableIsWellPlaced(children: seq<Child>)
    ensures Grouped(RowsOf(children))
    ensures var rows := RowsOf(children);
            var cells := Place(Items(SpansOf(rows))).cells;
            WellPlaced(cells) && forall x :: x in cells ==> x.row < |rows| && x.row + x.h <= GroupEnd(rows, x.row)
  {
    RowsAreGrouped(children);
    var rows := RowsOf(children);
    var spans := SpansOf(rows);
    var items := Items(spans);
    ItemsComeFromRows(spans);
    forall x | x in items ensures x.row < |rows| && x.w >= 1 && 1 <= x.h <= GroupEnd(rows, x.row) - x.row {
      var k :| 0 <= k < |spans[x.row]| && spans[x.row][k] == Span(x.w, x.h);
    }
    assert forall i :: 0 <= i < |items| ==> items[i] in items;
    PlacementIsWellPlaced(items);
  }

  // ---- both placers on tables with row groups ----------------------------

  /** The spans as the matrix placer reads them: it knows no row groups. */
  function PlainSpans(rows: seq<Row>): seq<seq<Span>> {
    seq(|rows|, r requires 0 <= r < |rows| =>
      seq(|rows[r].cells|, k requires 0 <= k < |rows[r].cells| =>
        Span(ClampSpan(rows[r].cells[k].colspan, MAX_SPAN), ClampSpan(rows[r].cells[k].rowspan, MAX_SPAN))))
  }

  /** Cell by cell: the row span, limited to its row group, is the plain row span cut at
      the end of the table. */
  ghost predicate GroupsCutNothing(rows: seq<Row>)
    requires Grouped(rows)
  {
    forall r, k :: 0 <= r < |rows| && 0 <= k < |rows[r].cells| ==>
      var raw := rows[r].cells[k];
      SpanOf(raw, GroupEnd(rows, r) - r).h == Least(ClampSpan(raw.rowspan, MAX_SPAN), |rows| - r)
  }

  /** Spans that differ only in being clipped at the last of `R` rows. */
  ghost predicate ClippedSpans(a: seq<seq<Span>>, b: seq<seq<Span>>, R: nat) {
    && |a| == |b| <= R
    && (forall r :: 0 <= r < |a| ==> |a[r]| == |b[r]|)
    && forall r, k :: 0 <= r < |a| && 0 <= k < |a[r]| ==> a[r][k] == Span(b[r][k].w, Least(b[r][k].h, R - r))
  }

  lemma {:induction false} ItemsClip(a: seq<seq<Span>>, b: seq<seq<Span>>, R: nat)
    requires ClippedSpans(a, b, R)
    ensures Items(a) == ClipItems(Items(b), R)
    decreases |a|
  {
    if a != [] {
      var n := |a| - 1;
      ItemsClip(a[..n], b[..n], R);
      RowClips(a[n], b[n], n, R);
      hide ClipItems, RowItems;
      ClipAppends(Items(b[..n]), RowItems(n, b[n]), R);
    }
  }

  lemma {:induction false} RowClips(a: seq<Span>, b: seq<Span>, r: nat, R: nat)
    requires r < R && |a| == |b| && forall k :: 0 <= k < |a| ==> a[k] == Span(b[k].w, Least(b[k].h, R - r))
    ensures RowItems(r, a) == ClipItems(RowItems(r, b), R)
  {
  }

  lemma {:induction false} ClipAppends(a: seq<Item>, b: seq<Item>, R: nat)
    ensures ClipItems(a + b, R) == ClipItems(a, R) + ClipItems(b, R)
  {
  }

  lemma {:induction false} GroupedSpansClip(rows: seq<Row>)
    requires Grouped(rows)
    ensures ClippedSpans(SpansOf(rows), PlainSpans(rows), |rows|) <==> GroupsCutNothing(rows)
  {
    var a: seq<seq<Span>>, b: seq<seq<Span>> := SpansOf(rows), PlainSpans(rows);
    forall r, k | 0 <= r < |rows| && 0 <= k < |rows[r].cells|
      ensures r < GroupEnd(rows, r) && a[r][k] == SpanOf(rows[r].cells[k], GroupEnd(rows, r) - r)
      ensures a[r][k].w == b[r][k].w && b[r][k].h == ClampSpan(rows[r].cells[k].rowspan, MAX_SPAN)
    {
    }
    hide SpanOf, ClampSpan, SpansOf, PlainSpans, GroupEnd, Grouped;
    if ClippedSpans(a, b, |rows|) {
      forall r, k | 0 <= r < |rows| && 0 <= k < |rows[r].cells|
        ensures r < GroupEnd(rows, r)
        ensures var raw := rows[r].cells[k];
                SpanOf(raw, GroupEnd(rows, r) - r).h == Least(ClampSpan(raw.rowspan, MAX_SPAN), |rows| - r)
      {
        assert a[r][k] == Span(b[r][k].w, Least(b[r][k].h, |rows| - r));
      }
    }
    if GroupsCutNothing(rows) {
      forall r, k | 0 <= r < |a| && 0 <= k < |a[r]|
        ensures a[r][k] == Span(b[r][k].w, Least(b[r][k].h, |rows| - r))
      {
        assert r < GroupEnd(rows, r) && a[r][k] == SpanOf(rows[r].cells[k], GroupEnd(rows, r) - r);
      }
    }
  }

  lemma {:induction false} PlainItemsAreProper(rows: seq<Row>)
    ensures var items := Items(PlainSpans(rows));
            forall k :: 0 <= k < |items| ==> items[k].row < |rows| && items[k].w >= 1 && items[k].h >= 1
  {
    var plain := PlainSpans(rows);
    var items := Items(plain);
    ItemsComeFromRows(plain);
    hide Items;
    forall k | 0 <= k < |items| ensures items[k].row < |rows| && items[k].w >= 1 && items[k].h >= 1 {
      var x := items[k];
      assert x in items;
      var j :| 0 <= j < |plain[x.row]| && plain[x.row][j] == Span(x.w, x.h);
    }
  }

  /** Without drops, cell `k` of a placement is item `k`. */
  lemma {:induction false} PlacedItem(items: seq<Item>, k: nat)
    requires Place(items).dropped.None? && k < |items|
    ensures |Place(items).cells| == |items|
    ensures var x := Place(items).cells[k]; x.row == items[k].row && x.w == items[k].w && x.h == items[k].h
    decreases |items|
  {
    hide FirstFree, Covered, Cursor;
    var n := |items| - 1;
    if n > 0 {
      PlacedItem(items[..n], if k < n then k else 0);
    } else {
      assert items[..0] == [];
    }
  }

  lemma {:induction false} PlacedItemM(items: seq<Item>, R: nat, C: nat, k: nat)
    requires PlaceM(items, R, C).dropped.None? && k < |items|
    ensures |PlaceM(items, R, C).cells| == |items| && items[k].row < R
    ensures var x := PlaceM(items, R, C).cells[k]; x.row == items[k].row && x.h == Least(items[k].h, R - x.row)
    decreases |items|
  {
    hide FirstFree, Covered, Cursor;
    var n := |items| - 1;
    if n > 0 {
      PlacedItemM(items[..n], R, C, if k < n then k else 0);
    } else {
      assert items[..0] == [];
    }
  }

  /** Cells that are alike and end inside the rows have the same height. */
  lemma {:induction false} AlikeHeights(a: Cell, b: Cell, R: nat, C: nat)
    requires Alike(a, b, R, C) && a.w >= 1 && a.row + a.h <= R && b.row + b.h <= R
    ensures a.h == b.h
  {
    assert Covers(a, a.row + b.h, a.col) <==> a.h > b.h;
    assert Covers(b, a.row + a.h, a.col) <==> b.h > a.h;
  }

  /** Where both tables of spans have the same rows, a cell stands at the same place of
      both item lists. */
  lemma {:induction false} SameIndex(a: seq<seq<Span>>, b: seq<seq<Span>>, r: nat, k: nat) returns (i: nat)
    requires |a| == |b| && (forall q :: 0 <= q < |a| ==> |a[q]| == |b[q]|) && r < |a| && k < |a[r]|
    ensures |Items(a)| == |Items(b)| && i < |Items(a)|
    ensures Items(a)[i] == Item(r, a[r][k].w, a[r][k].h) && Items(b)[i] == Item(r, b[r][k].w, b[r][k].h)
    decreases |a|
  {
    var n := |a| - 1;
    SameItemCount(a[..n], b[..n]);
    if r == n {
      i := |Items(a[..n])| + k;
    } else {
      i := SameIndex(a[..n], b[..n], r, k);
    }
  }

  lemma {:induction false} SameItemCount(a: seq<seq<Span>>, b: seq<seq<Span>>)
    requires |a| == |b| && forall q :: 0 <= q < |a| ==> |a[q]| == |b[q]|
    ensures |Items(a)| == |Items(b)|
    decreases |a|
  {
    if a != [] {
      SameItemCount(a[..|a| - 1], b[..|b| - 1]);
    }
  }

  /** If both placers put every cell alike, the heights they read are the same. */
  lemma {:induction false} AlikeSpan(a: seq<seq<Span>>, b: seq<seq<Span>>, R: nat, C: nat, r: nat, k: nat)
    requires |a| == |b| == R && (forall q :: 0 <= q < |a| ==> |a[q]| == |b[q]|) && r < |a| && k < |a[r]|
    requires a[r][k].w >= 1 && r + a[r][k].h <= R
    requires Place(Items(a)).dropped.None? && PlaceM(Items(b), R, C).dropped.None?
    requires AllAlike(Place(Items(a)).cells, PlaceM(Items(b), R, C).cells, R, C)
    ensures a[r][k].h == Least(b[r][k].h, R - r)
  {
    hide Place, PlaceM, Items, Alike;
    var i := SameIndex(a, b, r, k);
    PlacedItem(Items(a), i);
    PlacedItemM(Items(b), R, C, i);
    AlikeHeights(Place(Items(a)).cells[i], PlaceM(Items(b), R, C).cells[i], R, C);
  }

  ghost predicate NeitherDrops(rows: seq<Row>, C: nat)
    requires Grouped(rows)
  {
    Place(Items(SpansOf(rows))).dropped.None? && PlaceM(Items(PlainSpans(rows)), |rows|, C).dropped.None?
  }

  ghost predicate SamePlacement(rows: seq<Row>, C: nat)
    requires Grouped(rows)
  {
    AllAlike(Place(Items(SpansOf(rows))).cells, PlaceM(Items(PlainSpans(rows)), |rows|, C).cells, |rows|, C)
  }

  lemma {:induction false} SamePlacementCutsNothing(rows: seq<Row>, C: nat)
    requires Grouped(rows) && NeitherDrops(rows, C) && SamePlacement(rows, C)
    ensures GroupsCutNothing(rows)
  {
    hide Place, PlaceM, AllAlike, Items;
    var a: seq<seq<Span>>, b: seq<seq<Span>> := SpansOf(rows), PlainSpans(rows);
    forall r, k | 0 <= r < |rows| && 0 <= k < |rows[r].cells|
      ensures a[r][k] == Span(b[r][k].w, Least(b[r][k].h, |rows| - r))
    {
      assert r < GroupEnd(rows, r) <= |rows|;
      AlikeSpan(a, b, |rows|, C, r, k);
    }
    GroupedSpansClip(rows);
  }

  lemma {:induction false} CutNothingSamePlacement(rows: seq<Row>, C: nat)
    requires Grouped(rows) && NeitherDrops(rows, C) && GroupsCutNothing(rows)
    ensures SamePlacement(rows, C)
  {
    hide Place, PlaceM, AllAlike, Items, ClipItems, SpansOf, PlainSpans, GroupsCutNothing, Grouped, ClippedSpans;
    GroupedSpansClip(rows);
    ItemsClip(SpansOf(rows), PlainSpans(rows), |rows|);
    PlainItemsAreProper(rows);
    PlacersAgree(Items(PlainSpans(rows)), |rows|, C);
  }

  /** On every table where neither placer drops a cell, both put every cell in the same
      place if and only if no row group cuts a row span short. */
  lemma {:induction false} PlacersAgreeExactly(children: seq<Child>, C: nat)
    requires Grouped(RowsOf(children)) ==> NeitherDrops(RowsOf(children), C)
    ensures Grouped(RowsOf(children))
    ensures SamePlacement(RowsOf(children), C) <==> GroupsCutNothing(RowsOf(children))
  {
    RowsAreGrouped(children);
    var rows := RowsOf(children);
    hide RowsOf, Grouped, NeitherDrops, SamePlacement, GroupsCutNothing;
    if SamePlacement(rows, C) {
      SamePlacementCutsNothing(rows, C);
    }
    if GroupsCutNothing(rows) {
      CutNothingSamePlacement(rows, C);
    }
  }

  /** A head row with a cell that spans two rows, then a body row: the skyline ends the
      span with the head, the matrix does not. */
  const CROSSING: seq<Child> :=
    [Section([[Raw(1, 2, false), Raw(1, 1, false)]]), Tr([Raw(1, 1, false)])]

  lemma {:induction false} CrossingRows()
    ensures RowsOf(CROSSING) == [Row([Raw(1, 2, false), Raw(1, 1, false)], 1), Row([Raw(1, 1, false)], 0)]
  {
    var none: seq<Child> := [];
    assert CROSSING[..1] == [CROSSING[0]] && [CROSSING[0]][..0] == none;
    assert RowsOf([CROSSING[0]]) == [Row([Raw(1, 2, false), Raw(1, 1, false)], 1)];
  }

  lemma {:induction false} ThreeItems(a: Item, b: Item, c: Item, R: nat, C: nat)
    ensures Place([a, b, c]) == Put(Put(Put(State([], None), a), b), c)
    ensures PlaceM([a, b, c], R, C) == PutM(PutM(PutM(State([], None), a, R, C), b, R, C), c, R, C)
  {
    assert Place([]) == State([], None) && PlaceM([], R, C) == State([], None);
    hide Place, PlaceM, Put, PutM;
    assert [] + [a] == [a] && [a] + [b] == [a, b] && [a, b] + [c] == [a, b, c];
    PlaceAppend([], a);
    PlaceAppend([a], b);
    PlaceAppend([a, b], c);
    PlaceMAppend([], a, R, C);
    PlaceMAppend([a], b, R, C);
    PlaceMAppend([a, b], c, R, C);
  }

  lemma {:induction false} TwoRowItems(p: Span, q: Span, s: Span)
    ensures Items([[p, q], [s]]) == [Item(0, p.w, p.h), Item(0, q.w, q.h), Item(1, s.w, s.h)]
  {
    var none: seq<seq<Span>> := [];
    assert [[p, q], [s]][..1] == [[p, q]] && [[p, q]][..0] == none;
    assert Items([[p, q]]) == RowItems(0, [p, q]);
  }

  lemma {:induction false} CrossingSpans(rows: seq<Row>)
    requires rows == [Row([Raw(1, 2, false), Raw(1, 1, false)], 1), Row([Raw(1, 1, false)], 0)] && Grouped(rows)
    ensures SpansOf(rows) == [[Span(1, 1), Span(1, 1)], [Span(1, 1)]]
    ensures PlainSpans(rows) == [[Span(1, 2), Span(1, 1)], [Span(1, 1)]]
  {
    var grouped, plain := SpansOf(rows), PlainSpans(rows);
    assert grouped[0] == [Span(1, 1), Span(1, 1)] && grouped[1] == [Span(1, 1)];
    assert plain[0] == [Span(1, 2), Span(1, 1)] && plain[1] == [Span(1, 1)];
  }

  /** A row span that crosses its group makes the placers differ. */
  lemma {:induction false} CrossingSpansDiffer()
    ensures Grouped(RowsOf(CROSSING)) && !GroupsCutNothing(RowsOf(CROSSING))
    ensures var rows := RowsOf(CROSSING);
            && Place(Items(SpansOf(rows))) == State([Cell(0, 0, 1, 1), Cell(0, 1, 1, 1), Cell(1, 0, 1, 1)], None)
            && PlaceM(Items(PlainSpans(rows)), 2, 2) ==
               State([Cell(0, 0, 1, 2), Cell(0, 1, 1, 1), Cell(1, 1, 1, 1)], None)
  {
    CrossingRows();
    RowsAreGrouped(CROSSING);
    var rows := RowsOf(CROSSING);
    assert rows[0].cells[0] == Raw(1, 2, false) && GroupEnd(rows, 0) == 1;
    assert !GroupsCutNothing(rows);
    var one, two := Span(1, 1), Span(1, 2);
    CrossingSpans(rows);
    hide RowsOf, SpansOf, PlainSpans;
    TwoRowItems(one, one, one);
    TwoRowItems(two, one, one);
    hide Items, Place, PlaceM;
    ThreeItems(Item(0, 1, 1), Item(0, 1, 1), Item(1, 1, 1), 2, 2);
    ThreeItems(Item(0, 1, 2), Item(0, 1, 1), Item(1, 1, 1), 2, 2);
    SkylineCrossing();
    MatrixCrossing();
  }

  lemma {:induction false} SkylineCrossing()
    ensures Put(Put(Put(State([], None), Item(0, 1, 1)), Item(0, 1, 1)), Item(1, 1, 1)) ==
            State([Cell(0, 0, 1, 1), Cell(0, 1, 1, 1), Cell(1, 0, 1, 1)], None)
  {
    var a, b := [Cell(0, 0, 1, 1)], [Cell(0, 0, 1, 1), Cell(0, 1, 1, 1)];
    FirstFreeIs([], 0, 0, 0);
    assert Put(State([], None), Item(0, 1, 1)).cells == a;
    FirstFreeIs(a, 0, 1, 1);
    assert Put(State(a, None), Item(0, 1, 1)).cells == b;
    FirstFreeIs(b, 1, 0, 0);
    assert b + [Cell(1, 0, 1, 1)] == [Cell(0, 0, 1, 1), Cell(0, 1, 1, 1), Cell(1, 0, 1, 1)];
  }

  lemma {:induction false} MatrixCrossing()
    ensures PutM(PutM(PutM(State([], None), Item(0, 1, 2), 2, 2), Item(0, 1, 1), 2, 2), Item(1, 1, 1), 2, 2) ==
            State([Cell(0, 0, 1, 2), Cell(0, 1, 1, 1), Cell(1, 1, 1, 1)], None)
  {
    var a, b := [Cell(0, 0, 1, 2)], [Cell(0, 0, 1, 2), Cell(0, 1, 1, 1)];
    FirstFreeIs([], 0, 0, 0);
    assert PutM(State([], None), Item(0, 1, 2), 2, 2).cells == a;
    FirstFreeIs(a, 0, 1, 1);
    assert PutM(State(a, None), Item(0, 1, 1), 2, 2).cells == b;
    assert Covers(b[0], 1, 0);
    FirstFreeIs(b, 1, 0, 1);
    assert b + [Cell(1, 1, 1, 1)] == [Cell(0, 0, 1, 2), Cell(0, 1, 1, 1), Cell(1, 1, 1, 1)];
  }
}
