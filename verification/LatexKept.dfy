/** Which cells the owners loop of `latex_tabular_to_html` (src/mapping/nemotron.cpp)
    keeps and how high they come out, said of the tabular without owners map and without
    truncation: the owner of a column is the last kept cell over it, and a cell ends
    where the first text takes one of its columns. */
module LatexKept {
  import opened Common
  import opened Skyline
  import opened Latex

  /** A kept cell with the height it was written with. */
  datatype Kept = Kept(row: nat, col: nat, w: nat, h: nat, empty: bool)

  predicate Over(x: Kept, c: nat) {
    x.col <= c < x.col + x.w
  }

  /** Cell `j` is text that starts on a column of cell `i`, within its height, with no
      cell kept between them over that column. */
  ghost predicate Takes(ks: seq<Kept>, i: nat, j: nat) {
    && i < j < |ks| && !ks[j].empty && Over(ks[i], ks[j].col)
    && ks[i].row < ks[j].row < ks[i].row + ks[i].h
    && forall m :: i < m < j ==> !Over(ks[m], ks[j].col)
  }

  /** The height of cell `i`: as written, or up to the first text that takes it. */
  ghost function HeightIn(ks: seq<Kept>, i: nat): nat
    requires i < |ks|
  {
    var n := |ks| - 1;
    if i == n then ks[i].h
    else
      var before := HeightIn(ks[..n], i);
      if before == ks[i].h && Takes(ks, i, n) then ks[n].row - ks[i].row else before
  }

  /** The last kept cell over a column. */
  function LastOver(ks: seq<Kept>, c: nat): (i: Option<nat>)
    ensures i.Some? ==> i.value < |ks| && Over(ks[i.value], c) && forall m :: i.value < m < |ks| ==> !Over(ks[m], c)
    ensures i.None? ==> forall m :: 0 <= m < |ks| ==> !Over(ks[m], c)
  {
    if ks == [] then None
    else if Over(ks[|ks| - 1], c) then Some(|ks| - 1)
    else LastOver(ks[..|ks| - 1], c)
  }

  /** A position under a kept cell that still reaches it. */
  ghost predicate Under(ks: seq<Kept>, r: nat, c: nat) {
    LastOver(ks, c).Some? && ks[LastOver(ks, c).value].row + HeightIn(ks, LastOver(ks, c).value) > r
  }

  function ColumnOf(xs: seq<LatexCell>, k: nat): nat
    requires k <= |xs|
  {
    if k == 0 then 0 else ColumnOf(xs, k - 1) + xs[k - 1].w
  }

  /** An empty cell under a kept one is dropped; every other cell is kept as written. */
  ghost function AddCell(ks: seq<Kept>, r: nat, col: nat, x: LatexCell): seq<Kept> {
    if x.empty && Under(ks, r, col) then ks else ks + [Kept(r, col, x.w, x.h, x.empty)]
  }

  /** The kept cells of rows 0 .. r - 1 and of the first `k` cells of row `r`. */
  ghost function KeptUpTo(rows: seq<seq<LatexCell>>, r: nat, k: nat): seq<Kept>
    requires r <= |rows| && (if r < |rows| then k <= |rows[r]| else k == 0)
    decreases r, k
  {
    if k > 0 then AddCell(KeptUpTo(rows, r, k - 1), r, ColumnOf(rows[r], k - 1), rows[r][k - 1])
    else if r > 0 then KeptUpTo(rows, r - 1, |rows[r - 1]|)
    else []
  }

  // ---- heights -----------------------------------------------------------

  lemma {:induction false} TakesPrefix(ks: seq<Kept>, n: nat, i: nat, j: nat)
    requires j < n <= |ks|
    ensures Takes(ks, i, j) <==> Takes(ks[..n], i, j)
  {
  }

  /** A cell that no text takes is as high as written; one that is taken ends at the row
      of the first text that takes it. */
  lemma {:induction false} HeightMeans(ks: seq<Kept>, i: nat)
    requires i < |ks|
    ensures (forall j :: 0 <= j < |ks| ==> !Takes(ks, i, j)) ==> HeightIn(ks, i) == ks[i].h
    ensures forall j :: 0 <= j < |ks| && Takes(ks, i, j) && (forall m :: 0 <= m < j ==> !Takes(ks, i, m)) ==>
              HeightIn(ks, i) == ks[j].row - ks[i].row < ks[i].h
    decreases |ks|
  {
    var n := |ks| - 1;
    if i < n {
      HeightMeans(ks[..n], i);
      forall j: nat | j < n ensures Takes(ks, i, j) <==> Takes(ks[..n], i, j) {
        TakesPrefix(ks, n, i, j);
      }
      hide Takes;
    }
  }

  /** A height is what was written or the distance to a later cell. */
  lemma {:induction false} HeightIs(ks: seq<Kept>, i: nat)
    requires i < |ks|
    ensures HeightIn(ks, i) == ks[i].h ||
            exists j :: i < j < |ks| && ks[i].row <= ks[j].row && HeightIn(ks, i) == ks[j].row - ks[i].row
    decreases |ks|
  {
    var n := |ks| - 1;
    if i < n {
      HeightIs(ks[..n], i);
      if HeightIn(ks[..n], i) != ks[i].h {
        var j :| i < j < n && ks[i].row <= ks[..n][j].row && HeightIn(ks[..n], i) == ks[..n][j].row - ks[i].row;
        assert ks[j] == ks[..n][j];
      }
    }
  }

  // ---- the loop computes it ----------------------------------------------

  /** The loop's table holds the kept cells at their heights, and its map the last kept
      cell over each column. */
  ghost predicate Holds(t: Table, ks: seq<Kept>) {
    && |t.cells| == |ks|
    && (forall i :: 0 <= i < |ks| ==> t.cells[i] == Cell(ks[i].row, ks[i].col, ks[i].w, HeightIn(ks, i)))
    && (forall c: nat :: LastOver(ks, c) == if c in t.owners then Some(t.owners[c]) else None)
  }

  lemma {:induction false} ActiveIsUnder(t: Table, ks: seq<Kept>, r: nat, c: nat)
    requires Holds(t, ks)
    ensures Active(t, r, c) <==> Under(ks, r, c)
  {
    hide HeightIn;
    assert LastOver(ks, c) == if c in t.owners then Some(t.owners[c]) else None;
  }

  /** Adding a cell changes no height but that of the owner it takes. */
  lemma {:induction false} HeightAfter(ks: seq<Kept>, y: Kept, i: nat)
    requires i < |ks| && forall j :: 0 <= j < |ks| ==> ks[j].row <= y.row
    requires LastOver(ks, y.col).Some? ==> ks[LastOver(ks, y.col).value].row < y.row
    ensures HeightIn(ks + [y], i) ==
            if !y.empty && LastOver(ks, y.col) == Some(i) && Under(ks, y.row, y.col) then y.row - ks[i].row
            else HeightIn(ks, i)
  {
    var after := ks + [y];
    assert after[..|ks|] == ks && after[|ks|] == y;
    HeightIs(ks, i);
    assert Takes(after, i, |ks|) <==>
           !y.empty && LastOver(ks, y.col) == Some(i) && ks[i].row < y.row < ks[i].row + ks[i].h by {
      if LastOver(ks, y.col) != Some(i) && Over(ks[i], y.col) {
        assert Over(after[LastOver(ks, y.col).value], y.col);
      }
    }
  }

  lemma {:induction false} LastOverAppend(ks: seq<Kept>, y: Kept, c: nat)
    ensures LastOver(ks + [y], c) == if Over(y, c) then Some(|ks|) else LastOver(ks, c)
  {
    assert (ks + [y])[..|ks|] == ks;
  }

  lemma {:induction false} KeepHolds(t: Table, ks: seq<Kept>, r: nat, col: nat, x: LatexCell)
    requires Holds(t, ks) && RowsOk(t, r, col) && Proper(x) && Step(t, r, col, x).Some?
    requires !(Active(t, r, col) && x.empty)
    ensures Holds(Step(t, r, col, x).value, ks + [Kept(r, col, x.w, x.h, x.empty)])
  {
    hide HeightIn, OwnColumns, Takes;
    var y := Kept(r, col, x.w, x.h, x.empty);
    var u, after := Step(t, r, col, x).value, ks + [y];
    ActiveIsUnder(t, ks, r, col);
    assert LastOver(ks, col) == if col in t.owners then Some(t.owners[col]) else None;
    forall i | 0 <= i < |after| ensures u.cells[i] == Cell(after[i].row, after[i].col, after[i].w, HeightIn(after, i)) {
      if i < |ks| {
        assert t.cells[i] == Cell(ks[i].row, ks[i].col, ks[i].w, HeightIn(ks, i));
        HeightAfter(ks, y, i);
      } else {
        NewestHeight(ks, y);
      }
    }
    forall c: nat ensures LastOver(after, c) == if c in u.owners then Some(u.owners[c]) else None {
      OwnedColumn(t.owners, col, x.w, |t.cells|, c);
      LastOverAppend(ks, y, c);
    }
  }

  lemma {:induction false} NewestHeight(ks: seq<Kept>, y: Kept)
    ensures HeightIn(ks + [y], |ks|) == y.h
  {
  }

  lemma {:induction false} StepHolds(t: Table, ks: seq<Kept>, r: nat, col: nat, x: LatexCell)
    requires Holds(t, ks) && RowsOk(t, r, col) && Proper(x) && Step(t, r, col, x).Some?
    ensures Holds(Step(t, r, col, x).value, AddCell(ks, r, col, x))
  {
    hide Holds, RowsOk, Under;
    ActiveIsUnder(t, ks, r, col);
    if !(Active(t, r, col) && x.empty) {
      KeepHolds(t, ks, r, col, x);
    }
  }

  lemma {:induction false} RowHolds(rows: seq<seq<LatexCell>>, t: Table, r: nat, k: nat)
    requires r < |rows| && k <= |rows[r]| && (forall x :: x in rows[r] ==> Proper(x))
    requires Holds(t, KeptUpTo(rows, r, k)) && RowsOk(t, r, ColumnOf(rows[r], k))
    requires RowFrom(t, r, ColumnOf(rows[r], k), rows[r][k..]).Some?
    ensures Holds(RowFrom(t, r, ColumnOf(rows[r], k), rows[r][k..]).value, KeptUpTo(rows, r, |rows[r]|))
    decreases |rows[r]| - k
  {
    hide Holds, RowsOk, Step, AddCell;
    if k < |rows[r]| {
      var x, col := rows[r][k], ColumnOf(rows[r], k);
      assert x in rows[r] && rows[r][k..][0] == x && rows[r][k..][1..] == rows[r][k + 1..];
      StepHolds(t, KeptUpTo(rows, r, k), r, col, x);
      StepRowsOk(t, r, col, x);
      RowHolds(rows, Step(t, r, col, x).value, r, k + 1);
    }
  }

  lemma {:induction false} TableHolds(rows: seq<seq<LatexCell>>, n: nat)
    requires n <= |rows| && TableOf(rows[..n]).Some? && forall r, x :: 0 <= r < |rows| && x in rows[r] ==> Proper(x)
    ensures Holds(TableOf(rows[..n]).value, KeptUpTo(rows, n, 0))
    decreases n
  {
    if n > 0 {
      assert rows[..n][..n - 1] == rows[..n - 1];
      TableHolds(rows, n - 1);
      TableOfOk(rows[..n - 1]);
      var t := TableOf(rows[..n - 1]).value;
      assert rows[n - 1][0..] == rows[n - 1] && RowsOk(t, n - 1, 0);
      RowHolds(rows, t, n - 1, 0);
    } else {
      assert rows[..0] == [];
    }
  }

  /** For every tabular: the cells that come out are the kept cells of the source in order,
      at their own columns, with their own widths, and as high as written unless a text
      takes one of their columns first. */
  lemma {:induction false} TableIsKept(rows: seq<seq<LatexCell>>, i: nat)
    requires TableOf(rows).Some? && forall r, x :: 0 <= r < |rows| && x in rows[r] ==> Proper(x)
    requires i < |TableOf(rows).value.cells|
    ensures var cells, ks := TableOf(rows).value.cells, KeptUpTo(rows, |rows|, 0);
            && |cells| == |ks|
            && cells[i].row == ks[i].row && cells[i].col == ks[i].col && cells[i].w == ks[i].w
            && ((forall j :: 0 <= j < |ks| ==> !Takes(ks, i, j)) ==> cells[i].h == ks[i].h)
            && (forall j :: 0 <= j < |ks| && Takes(ks, i, j) && (forall m :: 0 <= m < j ==> !Takes(ks, i, m)) ==>
                  cells[i].h == ks[j].row - ks[i].row)
  {
    hide Takes, HeightIn, TableOf, KeptUpTo;
    assert rows[..|rows|] == rows;
    TableHolds(rows, |rows|);
    HeightMeans(KeptUpTo(rows, |rows|, 0), i);
  }

  // ---- every source cell is accounted for --------------------------------

  lemma {:induction false} KeptGrows(rows: seq<seq<LatexCell>>, r: nat, k: nat, q: nat, j: nat)
    requires r <= q <= |rows| && (if r < |rows| then k <= |rows[r]| else k == 0)
    requires (if q < |rows| then j <= |rows[q]| else j == 0) && (r == q ==> k <= j)
    ensures KeptUpTo(rows, r, k) <= KeptUpTo(rows, q, j)
    decreases q, j
  {
    hide Under;
    if j > 0 && !(r == q && k == j) {
      KeptGrows(rows, r, k, q, j - 1);
    } else if j == 0 && r < q {
      KeptGrows(rows, r, k, q - 1, |rows[q - 1]|);
    }
  }

  /** Cell `k` of row `r`, with the widths left of it as its column: it is empty and under
      a cell kept before it, and adds nothing; or it is kept, as the next cell, with its
      own column, width, height and text. */
  lemma {:induction false} EveryCellIsAccounted(rows: seq<seq<LatexCell>>, r: nat, k: nat)
    requires r < |rows| && k < |rows[r]|
    ensures var before, after, all := KeptUpTo(rows, r, k), KeptUpTo(rows, r, k + 1), KeptUpTo(rows, |rows|, 0);
            var x, col := rows[r][k], ColumnOf(rows[r], k);
            && before <= all
            && if x.empty && Under(before, r, col) then after == before
               else |before| < |all| && all[|before|] == Kept(r, col, x.w, x.h, x.empty) && after == all[..|before| + 1]
  {
    hide Under, ColumnOf;
    KeptGrows(rows, r, k, |rows|, 0);
    KeptGrows(rows, r, k + 1, |rows|, 0);
    var before, all := KeptUpTo(rows, r, k), KeptUpTo(rows, |rows|, 0);
    assert KeptUpTo(rows, r, k + 1) == AddCell(before, r, ColumnOf(rows[r], k), rows[r][k]);
  }
}
