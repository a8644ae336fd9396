/** Exactly which tabulars keep their cell positions, row by row, at the guards of
    the owners loop (src/mapping/nemotron.cpp). */
module LatexExact {
  import opened Common
  import opened Skyline
  import opened Latex

  // ---- the condition -----------------------------------------------------

  ghost predicate AllCovered(cells: seq<Cell>, r: nat, from: nat, to: nat) {
    forall c: nat :: from <= c < to ==> Covered(cells, r, c)
  }

  /** The cells `xs` of row `r` from column `col` on, against the table `u` at the end
      of the row. A placeholder with a kept cell to its right stands on columns that
      are still covered at the end of the row; a kept cell does not stand on a column
      that an earlier cell still covers. */
  ghost predicate SafeFrom(t: Table, r: nat, col: nat, xs: seq<LatexCell>, u: Table)
    decreases |xs|
  {
    xs == [] ||
    var x := xs[0];
    if Active(t, r, col) && x.empty then
      && (|u.cells| > |t.cells| ==> AllCovered(u.cells, r, col, col + x.w))
      && SafeFrom(t, r, col + x.w, xs[1..], u)
    else
      && |t.cells| <= |u.cells| && !Covered(u.cells[..|t.cells|], r, col)
      && (Step(t, r, col, x).Some? ==> SafeFrom(Step(t, r, col, x).value, r, col + x.w, xs[1..], u))
  }

  /** Row `r` of a tabular is safe: nothing it passed over is uncovered by its end,
      and nothing it keeps stands under an earlier cell. */
  ghost predicate SafeRow(rows: seq<seq<LatexCell>>, r: nat)
    requires r < |rows|
  {
    TableOf(rows[..r]).Some? && RowFrom(TableOf(rows[..r]).value, r, 0, rows[r]).Some? &&
    var t := TableOf(rows[..r]).value;
    SafeFrom(t, r, 0, rows[r], RowFrom(t, r, 0, rows[r]).value)
  }

  // ---- a row leaves anchors and earlier rows alone -----------------------

  /** `b` has the cells of `a` at the same anchors with the same widths, covering the
      same positions of rows 0 .. r, and more cells behind them. */
  ghost predicate SameUpTo(a: seq<Cell>, b: seq<Cell>, r: int) {
    && |a| <= |b|
    && (forall i :: 0 <= i < |a| ==> a[i].row == b[i].row && a[i].col == b[i].col && a[i].w == b[i].w)
    && (forall i, q: nat, c: nat :: 0 <= i < |a| && q <= r ==> (Covers(a[i], q, c) <==> Covers(b[i], q, c)))
  }

  lemma {:induction false} StepSame(t: Table, r: nat, col: nat, x: LatexCell)
    requires Step(t, r, col, x).Some?
    ensures SameUpTo(t.cells, Step(t, r, col, x).value.cells, r as int - 1)
  {
  }

  lemma {:induction false} SameTransitive(a: seq<Cell>, b: seq<Cell>, c: seq<Cell>, r: int)
    requires SameUpTo(a, b, r) && SameUpTo(b, c, r)
    ensures SameUpTo(a, c, r)
  {
    hide Covers;
    forall i, q: nat, k: nat | 0 <= i < |a| && q <= r ensures Covers(a[i], q, k) <==> Covers(c[i], q, k) {
      assert Covers(a[i], q, k) <==> Covers(b[i], q, k);
      assert Covers(b[i], q, k) <==> Covers(c[i], q, k);
    }
  }

  /** What a row appends: cells of that row, from the current column on. */
  lemma {:induction false} RowSame(t: Table, r: nat, col: nat, xs: seq<LatexCell>)
    requires RowFrom(t, r, col, xs).Some?
    ensures var u := RowFrom(t, r, col, xs).value;
            && SameUpTo(t.cells, u.cells, r as int - 1)
            && forall i :: |t.cells| <= i < |u.cells| ==> u.cells[i].row == r && u.cells[i].col >= col
    decreases |xs|
  {
    if xs != [] {
      var v, u := Step(t, r, col, xs[0]).value, RowFrom(t, r, col, xs).value;
      StepSame(t, r, col, xs[0]);
      RowSame(v, r, col + xs[0].w, xs[1..]);
      SameTransitive(t.cells, v.cells, u.cells, r as int - 1);
      StepAppends(t, r, col, xs[0]);
    }
  }

  lemma {:induction false} StepAppends(t: Table, r: nat, col: nat, x: LatexCell)
    requires Step(t, r, col, x).Some?
    ensures var v := Step(t, r, col, x).value;
            if Active(t, r, col) && x.empty then v == t
            else |v.cells| == |t.cells| + 1 && v.cells[|t.cells|].row == r && v.cells[|t.cells|].col == col
                 && v.cells[|t.cells|].w == x.w
  {
  }

  lemma {:induction false} SameCovered(a: seq<Cell>, b: seq<Cell>, k: nat, r: nat, c: nat)
    requires k <= |a| && SameUpTo(a, b, r)
    ensures Covered(a[..k], r, c) <==> Covered(b[..k], r, c)
    decreases k
  {
    if k > 0 {
      SameCovered(a, b, k - 1, r, c);
      CoveredAppend(a[..k - 1], a[k - 1], r, c);
      CoveredAppend(b[..k - 1], b[k - 1], r, c);
      assert a[..k] == a[..k - 1] + [a[k - 1]] && b[..k] == b[..k - 1] + [b[k - 1]];
    }
  }

  lemma {:induction false} SameCanonical(a: seq<Cell>, b: seq<Cell>, k: nat, r: nat)
    requires k < |a| && a[k].row <= r && SameUpTo(a, b, r)
    ensures CanonicalAt(a, k) <==> CanonicalAt(b, k)
  {
    hide Covered;
    assert SameUpTo(a, b, a[k].row);
    assert Cursor(a[..k], a[k].row) == Cursor(b[..k], a[k].row);
    forall c: nat ensures Covered(a[..k], a[k].row, c) <==> Covered(b[..k], a[k].row, c) {
      SameCovered(a, b, k, a[k].row, c);
    }
  }

  // ---- one row -----------------------------------------------------------

  /** Columns passed over since the last kept cell of the row, if more is kept. */
  ghost predicate PassedCovered(n: nat, r: nat, col: nat, u: Table) {
    n <= |u.cells| && (|u.cells| > n ==> AllCovered(u.cells, r, Cursor(u.cells[..n], r), col))
  }

  ghost predicate CanonicalFrom(cells: seq<Cell>, n: nat) {
    forall k :: n <= k < |cells| ==> CanonicalAt(cells, k)
  }

  /** Cells of row `r` from column `col` on cover nothing to the left of it. */
  lemma {:induction false} LeftOf(cells: seq<Cell>, n: nat, r: nat, col: nat, c: nat)
    requires n <= |cells| && c < col && forall i :: n <= i < |cells| ==> cells[i].col >= col
    ensures Covered(cells, r, c) <==> Covered(cells[..n], r, c)
    decreases |cells|
  {
    if n < |cells| {
      var m := |cells| - 1;
      LeftOf(cells[..m], n, r, col, c);
      assert cells[..m][..n] == cells[..n] && cells == cells[..m] + [cells[m]];
      CoveredAppend(cells[..m], cells[m], r, c);
    } else {
      assert cells[..n] == cells;
    }
  }

  /** A kept cell is canonical exactly when the gap before it is covered and its own
      column is not. */
  lemma {:induction false} KeptExact(u: Table, n: nat, r: nat, col: nat)
    requires n < |u.cells| && u.cells[n].row == r && u.cells[n].col == col && Cursor(u.cells[..n], r) <= col
    requires forall i :: n <= i < |u.cells| ==> u.cells[i].col >= col
    ensures CanonicalAt(u.cells, n) <==> PassedCovered(n, r, col, u) && !Covered(u.cells[..n], r, col)
  {
    hide Covered, Cursor;
    forall c: nat | c < col ensures Covered(u.cells, r, c) <==> Covered(u.cells[..n], r, c) {
      LeftOf(u.cells, n, r, col, c);
    }
  }

  lemma {:induction false} CanonicalFromFirst(cells: seq<Cell>, n: nat)
    requires n < |cells|
    ensures CanonicalFrom(cells, n) <==> CanonicalAt(cells, n) && CanonicalFrom(cells, n + 1)
  {
    hide CanonicalAt;
  }

  lemma {:induction false} NothingPassed(n: nat, r: nat, u: Table)
    requires 0 < n <= |u.cells| && u.cells[n - 1].row == r
    ensures PassedCovered(n, r, u.cells[n - 1].col + u.cells[n - 1].w, u)
  {
  }

  lemma {:induction false} PassedFurther(n: nat, r: nat, col: nat, w: nat, u: Table)
    requires n <= |u.cells| && Cursor(u.cells[..n], r) <= col
    ensures PassedCovered(n, r, col + w, u) <==>
            PassedCovered(n, r, col, u) && (|u.cells| > n ==> AllCovered(u.cells, r, col, col + w))
  {
    hide Covered, Cursor;
  }

  lemma {:induction false} RowExact(t: Table, r: nat, col: nat, xs: seq<LatexCell>)
    requires RowFrom(t, r, col, xs).Some? && Cursor(t.cells, r) <= col
    ensures var u := RowFrom(t, r, col, xs).value;
            PassedCovered(|t.cells|, r, col, u) && SafeFrom(t, r, col, xs, u) <==> CanonicalFrom(u.cells, |t.cells|)
    decreases |xs|
  {
    hide Covered, CanonicalAt, SafeFrom, Active, AllCovered;
    var n, u := |t.cells|, RowFrom(t, r, col, xs).value;
    RowSame(t, r, col, xs);
    SameCursor(t.cells, u.cells, r);
    if xs == [] {
      NothingLeft(t, r, col, xs);
    } else {
      hide SameUpTo;
      var x := xs[0];
      var v := Step(t, r, col, x).value;
      StepAppends(t, r, col, x);
      CursorSteps(t, r, col, x);
      RowExact(v, r, col + x.w, xs[1..]);
      SafeUnfolds(t, r, col, xs, u);
      hide Step, Cursor, PassedCovered, CanonicalFrom, RowFrom;
      if Active(t, r, col) && x.empty {
        PassedFurther(n, r, col, x.w, u);
      } else {
        KeptAnchor(v, r, col + x.w, xs[1..]);
        KeptExact(u, n, r, col);
        CanonicalFromFirst(u.cells, n);
        NothingPassed(n + 1, r, u);
      }
    }
  }

  lemma {:induction false} NothingLeft(t: Table, r: nat, col: nat, xs: seq<LatexCell>)
    requires xs == []
    ensures SafeFrom(t, r, col, xs, t) && PassedCovered(|t.cells|, r, col, t) && CanonicalFrom(t.cells, |t.cells|)
  {
  }

  lemma {:induction false} SafeUnfolds(t: Table, r: nat, col: nat, xs: seq<LatexCell>, u: Table)
    requires xs != [] && Step(t, r, col, xs[0]).Some? && |t.cells| <= |u.cells|
    ensures var x, v := xs[0], Step(t, r, col, xs[0]).value;
            var rest := SafeFrom(v, r, col + x.w, xs[1..], u);
            SafeFrom(t, r, col, xs, u) <==>
            if Active(t, r, col) && x.empty then
              (|u.cells| > |t.cells| ==> AllCovered(u.cells, r, col, col + x.w)) && rest
            else !Covered(u.cells[..|t.cells|], r, col) && rest
  {
    hide Covered, AllCovered;
  }

  lemma {:induction false} SameCursor(a: seq<Cell>, b: seq<Cell>, r: nat)
    requires |a| <= |b| && forall i :: 0 <= i < |a| ==> a[i].row == b[i].row && a[i].col == b[i].col && a[i].w == b[i].w
    ensures Cursor(a, r) == Cursor(b[..|a|], r)
  {
  }

  lemma {:induction false} CursorSteps(t: Table, r: nat, col: nat, x: LatexCell)
    requires Step(t, r, col, x).Some? && Cursor(t.cells, r) <= col
    ensures Cursor(Step(t, r, col, x).value.cells, r) <= col + x.w
  {
  }

  /** The last cell of a table keeps its anchor through the rest of the row. */
  lemma {:induction false} KeptAnchor(v: Table, r: nat, col: nat, xs: seq<LatexCell>)
    requires RowFrom(v, r, col, xs).Some? && v.cells != []
    ensures var u, n := RowFrom(v, r, col, xs).value, |v.cells| - 1;
            n < |u.cells| && u.cells[n].row == v.cells[n].row && u.cells[n].col == v.cells[n].col
            && u.cells[n].w == v.cells[n].w
  {
    RowSame(v, r, col, xs);
  }

  // ---- the whole tabular -------------------------------------------------

  lemma {:induction false} TableExact(rows: seq<seq<LatexCell>>)
    requires TableOf(rows).Some? && forall r, x :: 0 <= r < |rows| && x in rows[r] ==> Proper(x)
    ensures Canonical(TableOf(rows).value.cells) <==> forall r :: 0 <= r < |rows| ==> SafeRow(rows, r)
    decreases |rows|
  {
    if rows != [] {
      var n, before := |rows| - 1, rows[..|rows| - 1];
      TableExact(before);
      TableOfOk(before);
      var t := TableOf(before).value;
      var u := TableOf(rows).value;
      LastRowExact(t, n, rows[n]);
      forall r | 0 <= r < n ensures SafeRow(rows, r) <==> SafeRow(before, r) {
        SafeRowBefore(rows, n, r);
      }
      assert SafeRow(rows, n) <==> SafeFrom(t, n, 0, rows[n], u);
      hide SafeRow, SafeFrom, Canonical;
      if forall r :: 0 <= r < |rows| ==> SafeRow(rows, r) {
        assert SafeRow(rows, n);
        forall r | 0 <= r < n ensures SafeRow(before, r) {
          assert SafeRow(rows, r);
        }
      }
    }
  }

  lemma {:induction false} LastRowExact(t: Table, n: nat, xs: seq<LatexCell>)
    requires RowFrom(t, n, 0, xs).Some? && InRows(t.cells, n)
    ensures var u := RowFrom(t, n, 0, xs).value;
            Canonical(u.cells) <==> Canonical(t.cells) && SafeFrom(t, n, 0, xs, u)
  {
    var u, m := RowFrom(t, n, 0, xs).value, |t.cells|;
    RowSame(t, n, 0, xs);
    RowExact(t, n, 0, xs);
    hide Covered, CanonicalAt, SafeFrom, RowFrom;
    assert PassedCovered(m, n, 0, u);
    forall k | 0 <= k < m ensures CanonicalAt(t.cells, k) <==> CanonicalAt(u.cells, k) {
      SameCanonical(t.cells, u.cells, k, n - 1);
    }
  }

  /** Exactly when every row is safe does the skyline placer put every emitted cell
      where the owners loop had it. */
  lemma {:induction false} PositionsExact(rows: seq<seq<LatexCell>>)
    requires TableOf(rows).Some? && forall r, x :: 0 <= r < |rows| && x in rows[r] ==> Proper(x)
    ensures var cells, R := TableOf(rows).value.cells, |rows|;
            && Grouped(RowsOf(HtmlRows(cells, R)))
            && (SamePlaces(Place(Items(SpansOf(RowsOf(HtmlRows(cells, R))))).cells, cells) <==>
                forall r :: 0 <= r < |rows| ==> SafeRow(rows, r))
  {
    hide SafeRow, Canonical;
    PositionsPreserved(rows);
    TableExact(rows);
  }

  // ---- one-column multirows ----------------------------------------------

  /** A placeholder stands on actively owned columns only; any other cell may stand on
      an owned column with its first column but not reach over one. */
  ghost predicate LooseCell(t: Table, r: nat, col: nat, x: LatexCell) {
    if Active(t, r, col) && x.empty then forall c: nat :: col <= c < col + x.w ==> Active(t, r, c)
    else forall c: nat :: col < c < col + x.w ==> !Active(t, r, c)
  }

  ghost predicate LooseRow(t: Table, r: nat, col: nat, xs: seq<LatexCell>)
    decreases |xs|
  {
    xs == [] ||
    (LooseCell(t, r, col, xs[0]) &&
     (Step(t, r, col, xs[0]).Some? ==> LooseRow(Step(t, r, col, xs[0]).value, r, col + xs[0].w, xs[1..])))
  }

  ghost predicate Loose(rows: seq<seq<LatexCell>>) {
    forall r :: 0 <= r < |rows| && TableOf(rows[..r]).Some? ==> LooseRow(TableOf(rows[..r]).value, r, 0, rows[r])
  }

  predicate NarrowMultirow(x: LatexCell) {
    x.h > 1 ==> x.w == 1
  }

  /** Only the owner of a column covers it from row `r` on, owners stand over their
      columns, and multirows are one column wide. */
  ghost predicate OwnersOnly(t: Table, r: nat) {
    && (forall i, q: nat, c: nat :: 0 <= i < |t.cells| && r <= q && Covers(t.cells[i], q, c) ==>
          c in t.owners && t.owners[c] == i)
    && (forall c :: c in t.owners ==>
          t.owners[c] < |t.cells| && t.cells[t.owners[c]].col <= c < t.cells[t.owners[c]].col + t.cells[t.owners[c]].w)
    && (forall i :: 0 <= i < |t.cells| ==> t.cells[i].h > 1 ==> t.cells[i].w == 1)
  }

  lemma {:induction false} StepOwnersOnly(t: Table, r: nat, col: nat, x: LatexCell)
    requires OwnersOnly(t, r) && RowsOk(t, r, col) && Proper(x) && NarrowMultirow(x) && LooseCell(t, r, col, x)
    requires Step(t, r, col, x).Some?
    ensures OwnersOnly(Step(t, r, col, x).value, r)
  {
    if !(Active(t, r, col) && x.empty) {
      hide OwnColumns;
      var s := if Active(t, r, col) then Truncate(t, t.owners[col], r) else t;
      var y, v := Cell(r, col, x.w, x.h), Step(t, r, col, x).value;
      forall c: nat ensures c in v.owners <==> c in t.owners || col <= c < col + x.w {
        OwnedColumn(t.owners, col, x.w, |t.cells|, c);
      }
      forall c | c in v.owners ensures v.owners[c] == if col <= c < col + x.w then |t.cells| else t.owners[c] {
        OwnedColumn(t.owners, col, x.w, |t.cells|, c);
      }
      forall i, q: nat, c: nat | 0 <= i < |v.cells| && r <= q && Covers(v.cells[i], q, c)
        ensures c in v.owners && v.owners[c] == i
      {
        if i < |t.cells| {
          assert Covers(t.cells[i], q, c);
          assert Active(t, r, c);
          assert c != col;
        }
      }
    }
  }

  lemma {:induction false} StepKeepsLeft(t: Table, r: nat, col: nat, x: LatexCell, c: nat)
    requires OwnersOnly(t, r) && RowsOk(t, r, col) && Step(t, r, col, x).Some? && c < col && Covered(t.cells, r, c)
    ensures Covered(Step(t, r, col, x).value.cells, r, c)
  {
    hide Covered;
    var v := Step(t, r, col, x).value;
    CoveredBy(t.cells, r, c);
    var i :| 0 <= i < |t.cells| && Covers(t.cells[i], r, c);
    assert Covers(v.cells[i], r, c);
    CoversCovered(v.cells, r, c, i);
  }

  lemma {:induction false} CoveredBy(cells: seq<Cell>, r: nat, c: nat)
    requires Covered(cells, r, c)
    ensures exists i :: 0 <= i < |cells| && Covers(cells[i], r, c)
  {
  }

  lemma {:induction false} CoversCovered(cells: seq<Cell>, r: nat, c: nat, i: nat)
    requires i < |cells| && Covers(cells[i], r, c)
    ensures Covered(cells, r, c)
  {
  }

  lemma {:induction false} RowShrinks(t: Table, r: nat, col: nat, xs: seq<LatexCell>)
    requires RowFrom(t, r, col, xs).Some?
    ensures var u := RowFrom(t, r, col, xs).value;
            |t.cells| <= |u.cells| &&
            forall i, q: nat, c: nat :: 0 <= i < |t.cells| && Covers(u.cells[i], q, c) ==> Covers(t.cells[i], q, c)
    decreases |xs|
  {
    if xs != [] {
      RowShrinks(Step(t, r, col, xs[0]).value, r, col + xs[0].w, xs[1..]);
      StepShrinks(t, r, col, xs[0]);
    }
  }

  lemma {:induction false} StepShrinks(t: Table, r: nat, col: nat, x: LatexCell)
    requires Step(t, r, col, x).Some?
    ensures var v := Step(t, r, col, x).value;
            |t.cells| <= |v.cells| &&
            forall i, q: nat, c: nat :: 0 <= i < |t.cells| && Covers(v.cells[i], q, c) ==> Covers(t.cells[i], q, c)
  {
  }

  /** What the row has to show from `t` on. */
  ghost predicate LooseSoFar(t: Table, r: nat, col: nat, xs: seq<LatexCell>) {
    && OwnersOnly(t, r) && RowsOk(t, r, col) && LooseRow(t, r, col, xs)
    && forall x :: x in xs ==> Proper(x) && NarrowMultirow(x)
  }

  lemma {:induction false} LooseStep(t: Table, r: nat, col: nat, xs: seq<LatexCell>)
    requires xs != [] && LooseSoFar(t, r, col, xs) && Step(t, r, col, xs[0]).Some?
    ensures LooseSoFar(Step(t, r, col, xs[0]).value, r, col + xs[0].w, xs[1..])
  {
    hide OwnersOnly, RowsOk, Step, LooseCell;
    assert xs[0] in xs;
    StepOwnersOnly(t, r, col, xs[0]);
    StepRowsOk(t, r, col, xs[0]);
  }

  lemma {:induction false} RowKeepsLeft(t: Table, r: nat, col: nat, xs: seq<LatexCell>, c: nat)
    requires LooseSoFar(t, r, col, xs) && RowFrom(t, r, col, xs).Some? && c < col && Covered(t.cells, r, c)
    ensures Covered(RowFrom(t, r, col, xs).value.cells, r, c)
    decreases |xs|
  {
    hide Covered, LooseSoFar, Step;
    if xs != [] {
      LooseStep(t, r, col, xs);
      LooseParts(t, r, col, xs);
      StepKeepsLeft(t, r, col, xs[0], c);
      RowKeepsLeft(Step(t, r, col, xs[0]).value, r, col + xs[0].w, xs[1..], c);
    }
  }

  lemma {:induction false} LooseParts(t: Table, r: nat, col: nat, xs: seq<LatexCell>)
    requires LooseSoFar(t, r, col, xs)
    ensures OwnersOnly(t, r) && RowsOk(t, r, col) && (xs != [] ==> LooseCell(t, r, col, xs[0]))
  {
  }

  lemma {:induction false} PlaceholderCovered(t: Table, r: nat, col: nat, x: LatexCell, c: nat)
    requires OwnersOnly(t, r) && RowsOk(t, r, col) && LooseCell(t, r, col, x) && Active(t, r, col) && x.empty
    requires col <= c < col + x.w
    ensures Covered(t.cells, r, c)
  {
    hide Covered;
    assert Active(t, r, c);
    CoversCovered(t.cells, r, c, t.owners[c]);
  }

  /** A kept cell has no earlier cell over its column, then or later. */
  lemma {:induction false} KeptUncovered(t: Table, v: Table, r: nat, col: nat, x: LatexCell, u: Table)
    requires Step(t, r, col, x) == Some(v) && !(Active(t, r, col) && x.empty) && Proper(x) && OwnersOnly(v, r)
    requires |v.cells| <= |u.cells|
    requires forall i, q: nat, c: nat :: 0 <= i < |v.cells| && Covers(u.cells[i], q, c) ==> Covers(v.cells[i], q, c)
    ensures |t.cells| <= |u.cells| && !Covered(u.cells[..|t.cells|], r, col)
  {
    hide Covered, OwnColumns;
    OwnedColumn(t.owners, col, x.w, |t.cells|, col);
    var earlier := u.cells[..|t.cells|];
    forall i | 0 <= i < |earlier| ensures !Covers(earlier[i], r, col) {
      assert !Covers(v.cells[i], r, col);
    }
    NobodyCovers(earlier, r, col);
  }

  lemma {:induction false} NobodyCovers(cells: seq<Cell>, r: nat, c: nat)
    requires forall i :: 0 <= i < |cells| ==> !Covers(cells[i], r, c)
    ensures !Covered(cells, r, c)
  {
  }

  lemma {:induction false} LooseRowIsSafe(t: Table, r: nat, col: nat, xs: seq<LatexCell>)
    requires LooseSoFar(t, r, col, xs) && RowFrom(t, r, col, xs).Some?
    ensures var u := RowFrom(t, r, col, xs).value; SafeFrom(t, r, col, xs, u) && OwnersOnly(u, r)
    decreases |xs|
  {
    hide Covered, LooseSoFar, Step, OwnersOnly, RowsOk, LooseCell;
    LooseParts(t, r, col, xs);
    if xs != [] {
      var x, u := xs[0], RowFrom(t, r, col, xs).value;
      var v := Step(t, r, col, x).value;
      LooseStep(t, r, col, xs);
      LooseRowIsSafe(v, r, col + x.w, xs[1..]);
      LooseParts(v, r, col + x.w, xs[1..]);
      if Active(t, r, col) && x.empty {
        PlaceholderStays(t, r, col, x);
        forall c: nat | col <= c < col + x.w ensures Covered(u.cells, r, c) {
          PlaceholderCovered(t, r, col, x, c);
          RowKeepsLeft(v, r, col + x.w, xs[1..], c);
        }
      } else {
        RowShrinks(v, r, col + x.w, xs[1..]);
        ProperFirst(t, r, col, xs);
        KeptUncovered(t, v, r, col, x, u);
      }
    }
  }

  lemma {:induction false} PlaceholderStays(t: Table, r: nat, col: nat, x: LatexCell)
    requires Active(t, r, col) && x.empty
    ensures Step(t, r, col, x) == Some(t)
  {
  }

  lemma {:induction false} ProperFirst(t: Table, r: nat, col: nat, xs: seq<LatexCell>)
    requires LooseSoFar(t, r, col, xs) && xs != []
    ensures Proper(xs[0])
  {
    assert xs[0] in xs;
  }

  lemma {:induction false} SafeRowBefore(rows: seq<seq<LatexCell>>, n: nat, r: nat)
    requires r < n <= |rows|
    ensures SafeRow(rows, r) <==> SafeRow(rows[..n], r)
  {
    assert rows[..n][..r] == rows[..r];
  }

  lemma {:induction false} LooseLastRow(t: Table, n: nat, xs: seq<LatexCell>)
    requires OwnersOnly(t, n) && InRows(t.cells, n) && LooseRow(t, n, 0, xs) && RowFrom(t, n, 0, xs).Some?
    requires forall x :: x in xs ==> Proper(x) && NarrowMultirow(x)
    ensures var u := RowFrom(t, n, 0, xs).value; SafeFrom(t, n, 0, xs, u) && OwnersOnly(u, n + 1)
  {
    hide SafeFrom, LooseRow, RowFrom;
    assert LooseSoFar(t, n, 0, xs);
    LooseRowIsSafe(t, n, 0, xs);
  }

  /** A tabular with one-column multirows that no cell reaches over. */
  ghost predicate NarrowTable(rows: seq<seq<LatexCell>>) {
    && TableOf(rows).Some? && Loose(rows)
    && forall r, x :: 0 <= r < |rows| && x in rows[r] ==> Proper(x) && NarrowMultirow(x)
  }

  lemma {:induction false} NarrowPrefix(rows: seq<seq<LatexCell>>, n: nat)
    requires NarrowTable(rows) && n <= |rows|
    ensures NarrowTable(rows[..n])
  {
    hide LooseRow, TableOf;
    var before := rows[..n];
    assert TableOf(before).Some? by {
      if TableOf(before).None? {
        NoneStaysNone(rows, n);
      }
    }
    forall r | 0 <= r < n && TableOf(before[..r]).Some? ensures LooseRow(TableOf(before[..r]).value, r, 0, before[r]) {
      assert rows[..r] == before[..r] && rows[r] == before[r];
    }
  }

  /** The last row of such a tabular is safe, and owners stay the only ones to cover. */
  lemma {:induction false} NarrowLastRow(rows: seq<seq<LatexCell>>)
    requires NarrowTable(rows) && rows != [] && TableOf(rows[..|rows| - 1]).Some?
    requires OwnersOnly(TableOf(rows[..|rows| - 1]).value, |rows| - 1)
    ensures SafeRow(rows, |rows| - 1) && OwnersOnly(TableOf(rows).value, |rows|)
  {
    var n := |rows| - 1;
    TableOfOk(rows[..n]);
    hide SafeFrom, LooseRow, RowFrom, OwnersOnly, InRows, Proper, NarrowMultirow;
    LooseLastRow(TableOf(rows[..n]).value, n, rows[n]);
  }

  lemma {:induction false} NarrowOwners(rows: seq<seq<LatexCell>>)
    requires NarrowTable(rows)
    ensures TableOf(rows).Some? && OwnersOnly(TableOf(rows).value, |rows|)
    decreases |rows|
  {
    if rows != [] {
      hide NarrowTable, OwnersOnly, TableOf, SafeRow;
      NarrowPrefix(rows, |rows| - 1);
      NarrowOwners(rows[..|rows| - 1]);
      NarrowIsTable(rows);
      NarrowLastRow(rows);
    }
  }

  lemma {:induction false} NarrowIsTable(rows: seq<seq<LatexCell>>)
    requires NarrowTable(rows)
    ensures TableOf(rows).Some?
  {
  }

  lemma {:induction false} NarrowRowsAreSafe(rows: seq<seq<LatexCell>>, r: nat)
    requires NarrowTable(rows) && r < |rows|
    ensures SafeRow(rows, r)
  {
    hide NarrowTable, OwnersOnly, TableOf, SafeRow;
    var upTo := rows[..r + 1];
    assert upTo[..r] == rows[..r];
    NarrowPrefix(rows, r + 1);
    NarrowPrefix(rows, r);
    NarrowOwners(rows[..r]);
    NarrowLastRow(upTo);
    if r + 1 < |rows| {
      SafeRowBefore(rows, r + 1, r);
    } else {
      assert upTo == rows;
    }
  }

  /** Positions are preserved when multirows are one column wide and no cell reaches
      over one from the left, whether text or a placeholder stands under it. */
  lemma {:induction false} NarrowPositionsPreserved(rows: seq<seq<LatexCell>>)
    requires NarrowTable(rows)
    ensures var cells, R := TableOf(rows).value.cells, |rows|;
            && Grouped(RowsOf(HtmlRows(cells, R)))
            && SamePlaces(Place(Items(SpansOf(RowsOf(HtmlRows(cells, R))))).cells, cells)
  {
    hide SafeRow, Loose;
    forall r | 0 <= r < |rows| ensures SafeRow(rows, r) {
      NarrowRowsAreSafe(rows, r);
    }
    PositionsExact(rows);
  }

  lemma {:induction false} SingleRowIsLoose(t: Table, r: nat, col: nat, xs: seq<LatexCell>)
    requires forall x :: x in xs ==> x.w == 1
    ensures LooseRow(t, r, col, xs)
    decreases |xs|
  {
    hide Step, Active;
    if xs != [] {
      assert xs[0] in xs;
      if Step(t, r, col, xs[0]).Some? {
        SingleRowIsLoose(Step(t, r, col, xs[0]).value, r, col + xs[0].w, xs[1..]);
      }
    }
  }

  /** A tabular without multicolumn cells keeps every position, whatever its multirows
      and whatever stands under them. */
  lemma {:induction false} SingleColumnsPreserved(rows: seq<seq<LatexCell>>)
    requires TableOf(rows).Some? && forall r, x :: 0 <= r < |rows| && x in rows[r] ==> x.h >= 1 && x.w == 1
    ensures var cells, R := TableOf(rows).value.cells, |rows|;
            && Grouped(RowsOf(HtmlRows(cells, R)))
            && SamePlaces(Place(Items(SpansOf(RowsOf(HtmlRows(cells, R))))).cells, cells)
  {
    forall r | 0 <= r < |rows| && TableOf(rows[..r]).Some? ensures LooseRow(TableOf(rows[..r]).value, r, 0, rows[r]) {
      SingleRowIsLoose(TableOf(rows[..r]).value, r, 0, rows[r]);
    }
    hide TableOf, LooseRow, SamePlaces;
    NarrowPositionsPreserved(rows);
  }
}
