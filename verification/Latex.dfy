/** LaTeX tabulars to HTML rows: the owners loop of `latex_tabular_to_html`
    (src/mapping/nemotron.cpp), and what the skyline placer makes of its rows. */
module Latex {
  import opened Common
  import opened Skyline

  /** A parsed tabular cell: whether its text is empty, and its spans. */
  datatype LatexCell = LatexCell(empty: bool, w: nat, h: nat)

  /** The cells kept so far and, per column, which of them owns it. */
  datatype Table = Table(cells: seq<Cell>, owners: map<nat, nat>)

  /** Whether the owner of a column still spans row `r`. */
  predicate Active(t: Table, r: nat, c: nat) {
    c in t.owners && t.owners[c] < |t.cells| && t.cells[t.owners[c]].row + t.cells[t.owners[c]].h > r
  }

  /** Ends the multirow with index `i` above row `r`. */
  function Truncate(t: Table, i: nat, r: nat): Table
    requires i < |t.cells|
  {
    t.(cells := t.cells[i := t.cells[i].(h := if r < t.cells[i].row then 0 else r - t.cells[i].row)])
  }

  function OwnColumns(owners: map<nat, nat>, col: nat, w: nat, i: nat): map<nat, nat> {
    if w == 0 then owners else OwnColumns(owners, col, w - 1, i)[col + w - 1 := i]
  }

  function Keep(t: Table, x: Cell): Table {
    Table(t.cells + [x], OwnColumns(t.owners, x.col, x.w, |t.cells|))
  }

  /** One cell of row `r` at column `col`: an empty cell under an active owner is
      a placeholder; any other cell is kept and ends the owner it stands on. None
      when the table is too wide. */
  function Step(t: Table, r: nat, col: nat, x: LatexCell): Option<Table> {
    if Active(t, r, col) && x.empty then Some(t)
    else if col + x.w > MAX_COLUMNS then None
    else Some(Keep(if Active(t, r, col) then Truncate(t, t.owners[col], r) else t, Cell(r, col, x.w, x.h)))
  }

  function RowFrom(t: Table, r: nat, col: nat, xs: seq<LatexCell>): Option<Table>
    decreases |xs|
  {
    if xs == [] then Some(t)
    else
      match Step(t, r, col, xs[0])
      case None => None
      case Some(u) => RowFrom(u, r, col + xs[0].w, xs[1..])
  }

  function TableOf(rows: seq<seq<LatexCell>>): Option<Table> {
    if rows == [] then Some(Table([], map[]))
    else
      match TableOf(rows[..|rows| - 1])
      case None => None
      case Some(t) => RowFrom(t, |rows| - 1, 0, rows[|rows| - 1])
  }

  /** The owners loop as the source writes it. */
  method KeepCells(rows: seq<seq<LatexCell>>) returns (result: Option<Table>)
    ensures result == TableOf(rows)
  {
    var t := Table([], map[]);
    var r := 0;
    while r < |rows|
      invariant r <= |rows| && TableOf(rows[..r]) == Some(t)
    {
      var col: nat, k: nat := 0, 0;
      ghost var start := t;
      while k < |rows[r]|
        invariant k <= |rows[r]| && RowFrom(start, r, 0, rows[r]) == RowFrom(t, r, col, rows[r][k..])
      {
        var x := rows[r][k];
        assert rows[r][k..][1..] == rows[r][k + 1..];
        if Active(t, r, col) && x.empty {
          col := col + x.w;
        } else {
          if col + x.w > MAX_COLUMNS {
            assert TableOf(rows[..r + 1]) == None by { assert rows[..r + 1][..r] == rows[..r]; }
            NoneStaysNone(rows, r + 1);
            return None;
          }
          if Active(t, r, col) {
            t := Truncate(t, t.owners[col], r);
          }
          var owners := t.owners;
          var c := col;
          while c < col + x.w
            invariant col <= c <= col + x.w && owners == OwnColumns(t.owners, col, c - col, |t.cells|)
          {
            owners := owners[c := |t.cells|];
            c := c + 1;
          }
          t := Table(t.cells + [Cell(r, col, x.w, x.h)], owners);
          col := col + x.w;
        }
        k := k + 1;
      }
      assert rows[..r + 1][..r] == rows[..r];
      r := r + 1;
    }
    assert rows[..r] == rows;
    result := Some(t);
  }

  lemma {:induction false} NoneStaysNone(rows: seq<seq<LatexCell>>, r: nat)
    requires r <= |rows| && TableOf(rows[..r]).None?
    ensures TableOf(rows).None?
    decreases |rows|
  {
    if r < |rows| {
      assert rows[..|rows| - 1][..r] == rows[..r];
      NoneStaysNone(rows[..|rows| - 1], r);
    } else {
      assert rows[..r] == rows;
    }
  }

  // ---- the shape of the kept cells ---------------------------------------

  /** Kept cells come row by row, inside the column limit, with proper spans. */
  ghost predicate InRows(cells: seq<Cell>, R: nat) {
    && (forall i :: 0 <= i < |cells| ==>
          cells[i].row < R && cells[i].w >= 1 && cells[i].h >= 1 && cells[i].col + cells[i].w <= MAX_COLUMNS)
    && (forall i, j :: 0 <= i < j < |cells| ==> cells[i].row <= cells[j].row)
  }

  /** Within row `r`, columns from `col` on still belong to earlier rows. */
  ghost predicate RowsOk(t: Table, r: nat, col: nat) {
    && InRows(t.cells, r + 1)
    && (forall c :: c in t.owners ==> t.owners[c] < |t.cells|)
    && (forall c :: c in t.owners && c >= col ==> t.cells[t.owners[c]].row < r)
  }

  predicate Proper(x: LatexCell) {
    x.w >= 1 && x.h >= 1
  }

  lemma {:induction false} OwnedColumn(owners: map<nat, nat>, col: nat, w: nat, i: nat, c: nat)
    ensures c in OwnColumns(owners, col, w, i) <==> c in owners || col <= c < col + w
    ensures c in OwnColumns(owners, col, w, i) ==>
              OwnColumns(owners, col, w, i)[c] == if col <= c < col + w then i else owners[c]
    decreases w
  {
    if w > 0 {
      OwnedColumn(owners, col, w - 1, i, c);
    }
  }

  lemma {:induction false} StepRowsOk(t: Table, r: nat, col: nat, x: LatexCell)
    requires RowsOk(t, r, col) && Proper(x) && Step(t, r, col, x).Some?
    ensures RowsOk(Step(t, r, col, x).value, r, col + x.w)
  {
    hide OwnColumns;
    forall c: nat {
      OwnedColumn(t.owners, col, x.w, |t.cells|, c);
    }
  }

  lemma {:induction false} RowFromOk(t: Table, r: nat, col: nat, xs: seq<LatexCell>)
    requires RowsOk(t, r, col) && RowFrom(t, r, col, xs).Some? && forall x :: x in xs ==> Proper(x)
    ensures InRows(RowFrom(t, r, col, xs).value.cells, r + 1)
    ensures var u := RowFrom(t, r, col, xs).value; forall c :: c in u.owners ==> u.owners[c] < |u.cells|
    decreases |xs|
  {
    if xs != [] {
      StepRowsOk(t, r, col, xs[0]);
      RowFromOk(Step(t, r, col, xs[0]).value, r, col + xs[0].w, xs[1..]);
    }
  }

  lemma {:induction false} TableOfOk(rows: seq<seq<LatexCell>>)
    requires TableOf(rows).Some? && forall r, x :: 0 <= r < |rows| && x in rows[r] ==> Proper(x)
    ensures InRows(TableOf(rows).value.cells, |rows|)
    ensures var u := TableOf(rows).value; forall c :: c in u.owners ==> u.owners[c] < |u.cells|
    decreases |rows|
  {
    if rows != [] {
      var n := |rows| - 1;
      TableOfOk(rows[..n]);
      RowFromOk(TableOf(rows[..n]).value, n, 0, rows[n]);
    }
  }

  // ---- the emitted HTML rows ---------------------------------------------

  /** The cells kept in row `r`, in order. */
  function RowCells(cells: seq<Cell>, r: nat): seq<Raw> {
    if cells == [] then []
    else
      var x := cells[|cells| - 1];
      RowCells(cells[..|cells| - 1], r) + if x.row == r then [Raw(x.w, x.h, false)] else []
  }

  /** The `<tr>` elements the translation writes, one per tabular row. */
  function HtmlRows(cells: seq<Cell>, R: nat): seq<Child> {
    seq(R, r requires 0 <= r < R => Tr(RowCells(cells, r)))
  }

  function ItemsOf(cells: seq<Cell>): seq<Item> {
    seq(|cells|, i requires 0 <= i < |cells| => Item(cells[i].row, cells[i].w, cells[i].h))
  }

  /** The spans the placer reads from those rows. */
  function RowSpans(cells: seq<Cell>, r: nat, R: nat): seq<Span>
    requires r < R
  {
    var raws := RowCells(cells, r);
    seq(|raws|, k requires 0 <= k < |raws| => SpanOf(raws[k], R - r))
  }

  function AllSpans(cells: seq<Cell>, R: nat): seq<seq<Span>> {
    seq(R, r requires 0 <= r < R => RowSpans(cells, r, R))
  }

  lemma {:induction false} PlainRows(children: seq<Child>)
    requires forall i :: 0 <= i < |children| ==> children[i].Tr?
    ensures |RowsOf(children)| == |children|
    ensures forall i :: 0 <= i < |children| ==> RowsOf(children)[i] == Row(children[i].cells, 0)
    decreases |children|
  {
    if children != [] {
      PlainRows(children[..|children| - 1]);
    }
  }

  lemma {:induction false} SpansOfHtml(cells: seq<Cell>, R: nat)
    ensures Grouped(RowsOf(HtmlRows(cells, R)))
    ensures SpansOf(RowsOf(HtmlRows(cells, R))) == AllSpans(cells, R)
  {
    var rows := RowsOf(HtmlRows(cells, R));
    PlainRows(HtmlRows(cells, R));
    RowsAreGrouped(HtmlRows(cells, R));
    assert |SpansOf(rows)| == |AllSpans(cells, R)|;
    forall r | 0 <= r < R ensures SpansOf(rows)[r] == AllSpans(cells, R)[r] {
      assert rows[r] == Row(RowCells(cells, r), 0);
    }
  }

  /** Appending to a row that only empty rows follow appends to the items. */
  lemma {:induction false} AppendToRow(rows: seq<seq<Span>>, m: nat, s: Span)
    requires m < |rows| && forall r :: m < r < |rows| ==> rows[r] == []
    ensures Items(rows[m := rows[m] + [s]]) == Items(rows) + [Item(m, s.w, s.h)]
    decreases |rows|
  {
    var n, after := |rows| - 1, rows[m := rows[m] + [s]];
    if m == n {
      assert after[..n] == rows[..n];
      assert RowItems(n, after[n]) == RowItems(n, rows[n]) + [Item(m, s.w, s.h)];
    } else {
      AppendToRow(rows[..n], m, s);
      assert after[..n] == rows[..n][m := rows[m] + [s]];
      assert RowItems(n, after[n]) == [] && RowItems(n, rows[n]) == [];
    }
  }

  lemma {:induction false} EmptyRows(rows: seq<seq<Span>>)
    requires forall r :: 0 <= r < |rows| ==> rows[r] == []
    ensures Items(rows) == []
    decreases |rows|
  {
    if rows != [] {
      EmptyRows(rows[..|rows| - 1]);
      assert RowItems(|rows| - 1, rows[|rows| - 1]) == [];
    }
  }

  lemma {:induction false} LaterRowsAreEmpty(cells: seq<Cell>, r: nat)
    requires forall i :: 0 <= i < |cells| ==> cells[i].row < r
    ensures RowCells(cells, r) == []
    decreases |cells|
  {
    if cells != [] {
      LaterRowsAreEmpty(cells[..|cells| - 1], r);
    }
  }

  lemma {:induction false} RowSpansGrow(before: seq<Cell>, x: Cell, R: nat)
    requires x.row < R
    ensures var s, rows := SpanOf(Raw(x.w, x.h, false), R - x.row), AllSpans(before, R);
            AllSpans(before + [x], R) == rows[x.row := rows[x.row] + [s]]
  {
    assert (before + [x])[..|before|] == before;
    var s, rows := SpanOf(Raw(x.w, x.h, false), R - x.row), AllSpans(before, R);
    forall r | 0 <= r < R ensures RowSpans(before + [x], r, R) == if r == x.row then rows[r] + [s] else rows[r] {
      assert RowCells(before + [x], r) == RowCells(before, r) + if x.row == r then [Raw(x.w, x.h, false)] else [];
    }
  }

  lemma {:induction false} LaterSpansAreEmpty(cells: seq<Cell>, m: nat, R: nat)
    requires forall i :: 0 <= i < |cells| ==> cells[i].row <= m
    ensures forall r :: m < r < R ==> AllSpans(cells, R)[r] == []
  {
    forall r | m < r < R ensures AllSpans(cells, R)[r] == [] {
      LaterRowsAreEmpty(cells, r);
    }
  }

  lemma {:induction false} ClipStep(cells: seq<Cell>, R: nat, k: nat)
    requires k < |cells| && cells[k].row < R
    ensures ClipItems(ItemsOf(cells[..k + 1]), R)
         == ClipItems(ItemsOf(cells[..k]), R) + [Item(cells[k].row, cells[k].w, Least(cells[k].h, R - cells[k].row))]
  {
  }

  /** Reading the emitted rows in order gives back the kept cells, their row spans
      clipped at the last row. */
  lemma {:induction false} ItemsOfHtml(cells: seq<Cell>, R: nat)
    requires InRows(cells, R)
    ensures Items(AllSpans(cells, R)) == ClipItems(ItemsOf(cells), R)
    decreases |cells|
  {
    hide Items, ClipItems, ItemsOf, InRows, AllSpans;
    if cells == [] {
      NoSpans(cells, R);
    } else {
      var n := |cells| - 1;
      LastInRows(cells, R);
      ItemsOfHtml(cells[..n], R);
      OneMoreSpan(cells[..n], cells[n], R);
      assert cells == cells[..n] + [cells[n]] && cells[..n + 1] == cells;
      ClipStep(cells, R, n);
    }
  }

  lemma {:induction false} NoSpans(cells: seq<Cell>, R: nat)
    requires cells == []
    ensures Items(AllSpans(cells, R)) == ClipItems(ItemsOf(cells), R)
  {
    EmptyRows(AllSpans(cells, R));
  }

  lemma {:induction false} LastInRows(cells: seq<Cell>, R: nat)
    requires InRows(cells, R) && cells != []
    ensures var n := |cells| - 1;
            var x := cells[n];
            && InRows(cells[..n], R) && x.row < R && 1 <= x.w <= MAX_COLUMNS && x.h >= 1
            && forall i :: 0 <= i < n ==> cells[..n][i].row <= x.row
  {
  }

  lemma {:induction false} OneMoreSpan(before: seq<Cell>, x: Cell, R: nat)
    requires x.row < R && 1 <= x.w <= MAX_COLUMNS && x.h >= 1 &&
             forall i :: 0 <= i < |before| ==> before[i].row <= x.row
    ensures Items(AllSpans(before + [x], R)) == Items(AllSpans(before, R)) + [Item(x.row, x.w, Least(x.h, R - x.row))]
  {
    var rows, s := AllSpans(before, R), SpanOf(Raw(x.w, x.h, false), R - x.row);
    RowSpansGrow(before, x, R);
    LaterSpansAreEmpty(before, x.row, R);
    assert |rows| == R && s == Span(x.w, Least(x.h, R - x.row));
    hide Items, AllSpans, SpanOf;
    AppendToRow(rows, x.row, s);
  }

  /** Where the skyline placer puts the emitted rows' cells. */
  function SkylineCells(cells: seq<Cell>, R: nat): seq<Cell> {
    Place(ClipItems(ItemsOf(cells), R)).cells
  }

  // ---- positions ---------------------------------------------------------

  ghost predicate SamePlaces(a: seq<Cell>, b: seq<Cell>) {
    |a| == |b| && forall i :: 0 <= i < |a| ==> a[i].row == b[i].row && a[i].col == b[i].col
  }

  /** Cell `k` stands at the first column, from the end of its left neighbour on,
      that no earlier cell covers in its row. */
  ghost predicate CanonicalAt(cells: seq<Cell>, k: nat)
    requires k < |cells|
  {
    var x, before := cells[k], cells[..k];
    var from := Cursor(before, x.row);
    from <= x.col && !Covered(before, x.row, x.col) && forall c :: from <= c < x.col ==> Covered(before, x.row, c)
  }

  ghost predicate Canonical(cells: seq<Cell>) {
    forall k :: 0 <= k < |cells| ==> CanonicalAt(cells, k)
  }

  lemma {:induction false} SameCursorAndFirstFree(a: seq<Cell>, b: seq<Cell>, R: nat, r: nat)
    requires AllAlike(a, b, R, MAX_COLUMNS) && r < R
    requires forall i :: 0 <= i < |a| ==> a[i].col + a[i].w <= MAX_COLUMNS
    ensures Cursor(a, r) == Cursor(b, r)
    ensures FirstFree(a, r, Cursor(a, r)) < MAX_COLUMNS ==>
            FirstFree(b, r, Cursor(b, r)) == FirstFree(a, r, Cursor(a, r))
    ensures FirstFree(b, r, Cursor(b, r)) < MAX_COLUMNS ==>
            FirstFree(b, r, Cursor(b, r)) == FirstFree(a, r, Cursor(a, r))
  {
    hide Covered;
    assert |a| > 0 ==> Alike(a[|a| - 1], b[|b| - 1], R, MAX_COLUMNS);
    var from, c := Cursor(a, r), FirstFree(a, r, Cursor(a, r));
    if c < MAX_COLUMNS {
      AlikeCovers(a, b, R, MAX_COLUMNS, r, c);
      forall x | from <= x < c ensures Covered(b, r, x) {
        AlikeCovers(a, b, R, MAX_COLUMNS, r, x);
      }
      FirstFreeIs(b, r, from, c);
    } else if FirstFree(b, r, from) < MAX_COLUMNS {
      AlikeFirstFree(a, b, R, MAX_COLUMNS, r);
    }
  }

  function Clipped(x: Cell, R: nat): Cell
    requires x.row < R
  {
    x.(h := Least(x.h, R - x.row))
  }

  lemma {:induction false} ClippedAgain(x: Cell, R: nat)
    requires x.row < R && x.w >= 1 && x.col + x.w <= MAX_COLUMNS
    ensures Alike(x, Clipped(x, R), R, MAX_COLUMNS)
  {
  }

  /** Next to cells alike, the placer puts `x` at its own column exactly when that
      column is the first free one among the kept cells. */
  lemma {:induction false} StepExact(a: seq<Cell>, b: seq<Cell>, x: Cell, R: nat)
    requires AllAlike(a, b, R, MAX_COLUMNS) && x.row < R && x.w >= 1 && x.col + x.w <= MAX_COLUMNS
    requires forall i :: 0 <= i < |a| ==> a[i].col + a[i].w <= MAX_COLUMNS
    ensures AllAlike(a + [x], b + [Clipped(x, R)], R, MAX_COLUMNS)
    ensures var s := Put(State(b, None), Item(x.row, x.w, Clipped(x, R).h));
            if FirstFree(a, x.row, Cursor(a, x.row)) == x.col then s == State(b + [Clipped(x, R)], None)
            else s.cells == b || s.cells[|b|].col != x.col
  {
    hide Covered, FirstFree, Alike;
    SameCursorAndFirstFree(a, b, R, x.row);
    ClippedAgain(x, R);
  }

  /** One more canonical cell is reproduced. */
  lemma {:induction false} CanonicalStep(a: seq<Cell>, x: Cell, items: seq<Item>, R: nat)
    requires Place(items).dropped.None? && AllAlike(a, Place(items).cells, R, MAX_COLUMNS)
    requires x.row < R && x.w >= 1 && x.col + x.w <= MAX_COLUMNS &&
             forall i :: 0 <= i < |a| ==> a[i].col + a[i].w <= MAX_COLUMNS
    requires FirstFree(a, x.row, Cursor(a, x.row)) == x.col
    ensures var s := Place(items + [Item(x.row, x.w, Clipped(x, R).h)]);
            s.dropped.None? && AllAlike(a + [x], s.cells, R, MAX_COLUMNS)
  {
    hide Place, AllAlike, FirstFree, Put, Cursor;
    PlaceAppend(items, Item(x.row, x.w, Clipped(x, R).h));
    StepExact(a, Place(items).cells, x, R);
  }

  lemma {:induction false} CanonicalIsReproduced(cells: seq<Cell>, R: nat, k: nat)
    requires InRows(cells, R) && k <= |cells| && Canonical(cells)
    ensures var s := Place(ClipItems(ItemsOf(cells[..k]), R));
            s.dropped.None? && AllAlike(cells[..k], s.cells, R, MAX_COLUMNS)
    decreases k
  {
    hide Place, ClipItems, ItemsOf, FirstFree, Covered, Cursor, CanonicalAt, Alike;
    if k > 0 {
      var n := k - 1;
      CanonicalIsReproduced(cells, R, n);
      hide AllAlike;
      ClipStep(cells, R, n);
      assert CanonicalAt(cells, n);
      CanonicalIsFree(cells, n);
      CanonicalStep(cells[..n], cells[n], ClipItems(ItemsOf(cells[..n]), R), R);
      assert cells[..k] == cells[..n] + [cells[n]];
    } else {
      NothingToPlace(cells[..0], R);
    }
  }

  lemma {:induction false} NothingToPlace(cells: seq<Cell>, R: nat)
    requires cells == []
    ensures Place(ClipItems(ItemsOf(cells), R)) == State([], None)
  {
  }

  lemma {:induction false} CanonicalIsFree(cells: seq<Cell>, k: nat)
    requires k < |cells|
    ensures CanonicalAt(cells, k) <==>
            FirstFree(cells[..k], cells[k].row, Cursor(cells[..k], cells[k].row)) == cells[k].col
  {
    hide Covered, Cursor;
    if CanonicalAt(cells, k) {
      FirstFreeIs(cells[..k], cells[k].row, Cursor(cells[..k], cells[k].row), cells[k].col);
    }
  }

  lemma {:induction false} PlacedCount(items: seq<Item>)
    ensures |Place(items).cells| <= |items|
    ensures |Place(items).cells| == |items| ==> Place(items).dropped.None?
    decreases |items|
  {
    if items != [] {
      PlacedCount(items[..|items| - 1]);
    }
  }

  /** A full placement was full before its last cell. */
  lemma {:induction false} FullBefore(items: seq<Item>, y: Item)
    requires |Place(items + [y]).cells| == |items| + 1
    ensures |Place(items).cells| == |items| && Place(items).dropped.None?
    ensures Place(items + [y]) == Put(State(Place(items).cells, None), y)
    ensures Place(items + [y]).cells[..|items|] == Place(items).cells
  {
    hide FirstFree;
    PlaceAppend(items, y);
    PlacedCount(items);
  }

  /** Among reproduced cells, one more was placed where it stood only if that was
      its first free column. */
  lemma {:induction false} ReproducedStep(a: seq<Cell>, x: Cell, items: seq<Item>, R: nat)
    requires |items| == |a| && AllAlike(a, Place(items).cells, R, MAX_COLUMNS)
    requires x.row < R && x.w >= 1 && x.col + x.w <= MAX_COLUMNS &&
             forall i :: 0 <= i < |a| ==> a[i].col + a[i].w <= MAX_COLUMNS
    requires SamePlaces(Place(items + [Item(x.row, x.w, Clipped(x, R).h)]).cells, a + [x])
    ensures FirstFree(a, x.row, Cursor(a, x.row)) == x.col
    ensures AllAlike(a + [x], Place(items + [Item(x.row, x.w, Clipped(x, R).h)]).cells, R, MAX_COLUMNS)
  {
    var y := Item(x.row, x.w, Clipped(x, R).h);
    var b, placed := Place(items).cells, Place(items + [y]).cells;
    hide Place, AllAlike, FirstFree, Put, Cursor;
    FullBefore(items, y);
    assert placed[|a|].col == x.col by { assert (a + [x])[|a|] == x; }
    StepExact(a, b, x, R);
  }

  lemma {:induction false} ReproducedBefore(a: seq<Cell>, x: Cell, items: seq<Item>, y: Item)
    requires |items| == |a| && SamePlaces(Place(items + [y]).cells, a + [x])
    ensures SamePlaces(Place(items).cells, a)
  {
    hide Place;
    FullBefore(items, y);
    PrefixPlaces(Place(items + [y]).cells, a + [x], |a|);
    assert (a + [x])[..|a|] == a;
  }

  lemma {:induction false} ReproducedIsCanonical(cells: seq<Cell>, R: nat, k: nat)
    requires InRows(cells, R) && k <= |cells| && SamePlaces(SkylineCells(cells[..k], R), cells[..k])
    ensures AllAlike(cells[..k], SkylineCells(cells[..k], R), R, MAX_COLUMNS)
    ensures forall j :: 0 <= j < k ==> CanonicalAt(cells, j)
    decreases k
  {
    hide Place, Alike, ClipItems, ItemsOf, FirstFree, Covered, CanonicalAt, Cursor, SamePlaces;
    if k > 0 {
      hide AllAlike;
      var n := k - 1;
      var x, a, items := cells[n], cells[..n], ClipItems(ItemsOf(cells[..n]), R);
      var y := Item(x.row, x.w, Clipped(x, R).h);
      ClipStep(cells, R, n);
      ClipLength(a, R);
      assert cells[..k] == a + [x];
      ReproducedBefore(a, x, items, y);
      ReproducedIsCanonical(cells, R, n);
      ReproducedStep(a, x, items, R);
      CanonicalIsFree(cells, n);
    } else {
      NothingToPlace(cells[..0], R);
    }
  }

  lemma {:induction false} PrefixPlaces(a: seq<Cell>, b: seq<Cell>, n: nat)
    requires SamePlaces(a, b) && n <= |a|
    ensures SamePlaces(a[..n], b[..n])
  {
  }

  lemma {:induction false} ClipLength(cells: seq<Cell>, R: nat)
    ensures |ClipItems(ItemsOf(cells), R)| == |cells|
  {
  }

  /** Exactly when the kept cells are canonical does the skyline placer put every
      emitted cell where the owners loop had it. `LatexExact` carries this to the rows
      of the tabular. */
  lemma {:induction false} PositionsPreserved(rows: seq<seq<LatexCell>>)
    requires TableOf(rows).Some? && forall r, x :: 0 <= r < |rows| && x in rows[r] ==> Proper(x)
    ensures var cells, R := TableOf(rows).value.cells, |rows|;
            && Grouped(RowsOf(HtmlRows(cells, R)))
            && (SamePlaces(Place(Items(SpansOf(RowsOf(HtmlRows(cells, R))))).cells, cells) <==> Canonical(cells))
  {
    var cells, R := TableOf(rows).value.cells, |rows|;
    TableOfOk(rows);
    SpansOfHtml(cells, R);
    ItemsOfHtml(cells, R);
    assert cells[..|cells|] == cells;
    if Canonical(cells) {
      CanonicalIsReproduced(cells, R, |cells|);
      var placed := SkylineCells(cells, R);
      forall i | 0 <= i < |cells| ensures placed[i].row == cells[i].row && placed[i].col == cells[i].col {
        assert Alike(cells[i], placed[i], R, MAX_COLUMNS);
      }
    }
    if SamePlaces(SkylineCells(cells, R), cells) {
      ReproducedIsCanonical(cells, R, |cells|);
    }
  }

  // ---- tidy tabulars -----------------------------------------------------

  /** An empty cell under an active owner stands wholly on actively owned columns;
      any other cell wholly on columns without an active owner. */
  ghost predicate TidyCell(t: Table, r: nat, col: nat, x: LatexCell) {
    forall c :: col <= c < col + x.w ==> (Active(t, r, c) <==> Active(t, r, col) && x.empty)
  }

  ghost predicate TidyRow(t: Table, r: nat, col: nat, xs: seq<LatexCell>)
    decreases |xs|
  {
    xs == [] ||
    (TidyCell(t, r, col, xs[0]) &&
     (Step(t, r, col, xs[0]).Some? ==> TidyRow(Step(t, r, col, xs[0]).value, r, col + xs[0].w, xs[1..])))
  }

  ghost predicate Tidy(rows: seq<seq<LatexCell>>) {
    rows == [] ||
    (Tidy(rows[..|rows| - 1]) &&
     (TableOf(rows[..|rows| - 1]).Some? ==>
       TidyRow(TableOf(rows[..|rows| - 1]).value, |rows| - 1, 0, rows[|rows| - 1])))
  }

  /** From row `r` on, a column has an active owner exactly when a kept cell covers
      that position. */
  ghost predicate OwnersAgree(t: Table, r: nat) {
    forall c: nat, q: nat :: r <= q ==> (Active(t, q, c) <==> Covered(t.cells, q, c))
  }

  /** Columns passed over since the last kept cell of the row are covered. */
  ghost predicate GapCovered(t: Table, r: nat, col: nat) {
    && Cursor(t.cells, r) <= col
    && forall c :: Cursor(t.cells, r) <= c < col ==> Covered(t.cells, r, c)
  }

  lemma {:induction false} KeepAgrees(t: Table, x: Cell)
    requires OwnersAgree(t, x.row) && forall c :: x.col <= c < x.col + x.w ==> !Active(t, x.row, c)
    requires forall c :: c in t.owners ==> t.owners[c] < |t.cells|
    ensures OwnersAgree(Keep(t, x), x.row)
  {
    hide Covered, OwnColumns;
    var u := Keep(t, x);
    forall c: nat, q: nat | x.row <= q ensures Active(u, q, c) <==> Covered(u.cells, q, c) {
      OwnedColumn(t.owners, x.col, x.w, |t.cells|, c);
      CoveredAppend(t.cells, x, q, c);
      assert Active(t, q, c) <==> Covered(t.cells, q, c);
      if x.col <= c < x.col + x.w {
        assert !Active(t, x.row, c);
        assert u.owners[c] == |t.cells| && u.cells[|t.cells|] == x;
      } else if c in t.owners {
        assert u.cells[t.owners[c]] == t.cells[t.owners[c]];
      }
    }
  }

  lemma {:induction false} KeepCanonical(cells: seq<Cell>, x: Cell)
    requires Canonical(cells) && Cursor(cells, x.row) <= x.col && !Covered(cells, x.row, x.col)
    requires forall c :: Cursor(cells, x.row) <= c < x.col ==> Covered(cells, x.row, c)
    ensures Canonical(cells + [x])
  {
    hide Covered;
    var after := cells + [x];
    forall k | 0 <= k < |after| ensures CanonicalAt(after, k) {
      if k < |cells| {
        assert CanonicalAt(cells, k) && after[..k] == cells[..k];
      } else {
        assert after[..k] == cells;
      }
    }
  }

  ghost predicate TidySoFar(t: Table, r: nat, col: nat) {
    RowsOk(t, r, col) && OwnersAgree(t, r) && GapCovered(t, r, col) && Canonical(t.cells)
  }

  lemma {:induction false} TidyStep(t: Table, r: nat, col: nat, x: LatexCell)
    requires TidySoFar(t, r, col) && Proper(x) && TidyCell(t, r, col, x) && Step(t, r, col, x).Some?
    ensures TidySoFar(Step(t, r, col, x).value, r, col + x.w)
  {
    hide Covered, Canonical, OwnColumns;
    StepRowsOk(t, r, col, x);
    assert Active(t, r, col) <==> Covered(t.cells, r, col);
    if Active(t, r, col) && x.empty {
      forall c | col <= c < col + x.w ensures Covered(t.cells, r, c) {
        assert Active(t, r, c) <==> Covered(t.cells, r, c);
      }
    } else {
      var y := Cell(r, col, x.w, x.h);
      assert !Active(t, r, col);
      KeepAgrees(t, y);
      KeepCanonical(t.cells, y);
      CursorAfter(t.cells, y);
    }
  }

  lemma {:induction false} TidyRowCanonical(t: Table, r: nat, col: nat, xs: seq<LatexCell>)
    requires TidySoFar(t, r, col) && (forall x :: x in xs ==> Proper(x)) && TidyRow(t, r, col, xs)
    requires RowFrom(t, r, col, xs).Some?
    ensures var u := RowFrom(t, r, col, xs).value; OwnersAgree(u, r) && Canonical(u.cells)
    decreases |xs|
  {
    if xs != [] {
      hide TidySoFar;
      TidyStep(t, r, col, xs[0]);
      TidyRowCanonical(Step(t, r, col, xs[0]).value, r, col + xs[0].w, xs[1..]);
    }
  }

  lemma {:induction false} TidyTableCanonical(rows: seq<seq<LatexCell>>)
    requires TableOf(rows).Some? && (forall r, x :: 0 <= r < |rows| && x in rows[r] ==> Proper(x)) && Tidy(rows)
    ensures var t := TableOf(rows).value; OwnersAgree(t, |rows|) && Canonical(t.cells)
    decreases |rows|
  {
    if rows != [] {
      var n := |rows| - 1;
      TidyTableCanonical(rows[..n]);
      TableOfOk(rows[..n]);
      var t := TableOf(rows[..n]).value;
      assert TidySoFar(t, n, 0);
      TidyRowCanonical(t, n, 0, rows[n]);
    }
  }

  /** For every tidy tabular the translation preserves cell positions. */
  lemma {:induction false} TidyPositionsPreserved(rows: seq<seq<LatexCell>>)
    requires TableOf(rows).Some? && (forall r, x :: 0 <= r < |rows| && x in rows[r] ==> Proper(x)) && Tidy(rows)
    ensures var cells, R := TableOf(rows).value.cells, |rows|;
            && Grouped(RowsOf(HtmlRows(cells, R)))
            && SamePlaces(Place(Items(SpansOf(RowsOf(HtmlRows(cells, R))))).cells, cells)
  {
    TidyTableCanonical(rows);
    PositionsPreserved(rows);
  }

  /** A wide multirow, then an empty cell and a text cell under it: the text cell
      ends the multirow after the empty cell was passed over, and moves from the
      second column to the first. */
  const WIDE: seq<seq<LatexCell>> :=
    [[LatexCell(false, 2, 2)], [LatexCell(true, 1, 1), LatexCell(false, 1, 1)]]

  lemma {:induction false} UntidyPositionsCanMove()
    ensures TableOf(WIDE).Some? && !Canonical(TableOf(WIDE).value.cells)
    ensures var cells := TableOf(WIDE).value.cells;
            && Grouped(RowsOf(HtmlRows(cells, 2)))
            && !SamePlaces(Place(Items(SpansOf(RowsOf(HtmlRows(cells, 2))))).cells, cells)
  {
    WideCells();
    PositionsPreserved(WIDE);
  }

  lemma {:induction false} WideCells()
    ensures TableOf(WIDE).Some? && !Canonical(TableOf(WIDE).value.cells)
  {
    var first := Table([Cell(0, 0, 2, 2)], map[0 := 0, 1 := 0]);
    assert OwnColumns(map[], 0, 2, 0) == map[0 := 0, 1 := 0] by {
      assert OwnColumns(map[], 0, 1, 0) == OwnColumns(map[], 0, 0, 0)[0 := 0];
    }
    var top := [LatexCell(false, 2, 2)];
    assert [] + [Cell(0, 0, 2, 2)] == first.cells;
    assert Keep(Table([], map[]), Cell(0, 0, 2, 2)) == first;
    assert Step(Table([], map[]), 0, 0, top[0]) == Some(first);
    assert top[1..] == [];
    assert RowFrom(Table([], map[]), 0, 0, top) == RowFrom(first, 0, 2, []) == Some(first);
    var none: seq<seq<LatexCell>> := [];
    assert WIDE[..1] == [top] && [top][..0] == none;
    assert TableOf([]) == Some(Table([], map[]));
    assert TableOf([top]) == Some(first);
    var low := WIDE[1];
    assert Step(first, 1, 0, low[0]) == Some(first);
    var cut := Truncate(first, 0, 1);
    var last := Keep(cut, Cell(1, 1, 1, 1));
    assert Step(first, 1, 1, low[1]) == Some(last);
    assert low[1..] == [low[1]] && [low[1]][1..] == [];
    assert RowFrom(last, 1, 2, []) == Some(last);
    assert RowFrom(first, 1, 1, low[1..]) == Some(last);
    assert RowFrom(first, 1, 0, low) == Some(last);
    assert TableOf(WIDE) == Some(last);
    assert last.cells == [Cell(0, 0, 2, 1), Cell(1, 1, 1, 1)];
    assert last.cells[..1] == [Cell(0, 0, 2, 1)];
    assert !Covered(last.cells[..1], 1, 0);
    assert !CanonicalAt(last.cells, 1);
  }
}
