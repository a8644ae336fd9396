/** Markup tables in document order: what the skyline placer makes of each cell that
    `chandra_table_cells` (src/mapping/layout.cpp) reads. */
module TableOrder {
  import opened Common
  import opened Skyline

  function RowCount(children: seq<Child>): nat {
    if children == [] then 0
    else RowCount(children[..|children| - 1]) +
         match children[|children| - 1] case Tr(_) => 1 case Section(rows) => |rows|
  }

  /** Row `i` of child `k` stands behind the rows of the children before it, with its own
      cells and, in a section, the end of that section. */
  lemma {:induction false} RowsInDocumentOrder(children: seq<Child>, k: nat, i: nat)
    requires k < |children| && (children[k].Tr? ==> i == 0) && (children[k].Section? ==> i < |children[k].rows|)
    ensures |RowsOf(children)| == RowCount(children) && RowCount(children[..k]) + i < |RowsOf(children)|
    ensures var at := RowCount(children[..k]);
            RowsOf(children)[at + i] ==
              match children[k]
              case Tr(cells) => Row(cells, 0)
              case Section(rows) => Row(rows[i], at + |rows|)
    decreases |children|
  {
    var n := |children| - 1;
    RowsAreCounted(children[..n]);
    RowsAreCounted(children);
    if k < n {
      assert children[..n][..k] == children[..k];
      RowsInDocumentOrder(children[..n], k, i);
    }
  }

  lemma {:induction false} RowsAreCounted(children: seq<Child>)
    ensures |RowsOf(children)| == RowCount(children)
    decreases |children|
  {
    if children != [] {
      RowsAreCounted(children[..|children| - 1]);
    }
  }

  /** A cell of the source: what is written, its row, and where its row group ends. */
  datatype Source = Source(raw: Raw, row: nat, end: nat)

  function RowSources(cells: seq<Raw>, row: nat, end: nat): seq<Source> {
    seq(|cells|, k requires 0 <= k < |cells| => Source(cells[k], row, end))
  }

  /** The first `n` rows of a section that starts at row `at`. */
  function SectionSources(rows: seq<seq<Raw>>, at: nat, n: nat): seq<Source>
    requires n <= |rows|
  {
    if n == 0 then [] else SectionSources(rows, at, n - 1) + RowSources(rows[n - 1], at + n - 1, at + |rows|)
  }

  /** The cells of a table of `total` rows in document order; a row outside a section
      belongs to the whole table. */
  function SourcesOf(children: seq<Child>, total: nat): seq<Source> {
    if children == [] then []
    else
      var before, at := SourcesOf(children[..|children| - 1], total), RowCount(children[..|children| - 1]);
      match children[|children| - 1]
      case Tr(cells) => before + RowSources(cells, at, total)
      case Section(rows) => before + SectionSources(rows, at, |rows|)
  }

  /** The item a source cell becomes: its width at least one, its height at least one and
      inside its group, or all that is left of the group. */
  function ItemOf(x: Source): Item {
    var left := if x.row <= x.end then x.end - x.row else 0;
    Item(x.row, ClampSpan(x.raw.colspan, MAX_SPAN), if x.raw.rest then left else ClampSpan(x.raw.rowspan, left))
  }

  function ItemsOfSources(xs: seq<Source>): seq<Item> {
    seq(|xs|, k requires 0 <= k < |xs| => ItemOf(xs[k]))
  }

  lemma {:induction false} SourcesAppend(a: seq<Source>, b: seq<Source>)
    ensures ItemsOfSources(a + b) == ItemsOfSources(a) + ItemsOfSources(b)
  {
  }

  function EndOf(row: Row, total: nat): nat {
    if row.groupEnd != 0 then row.groupEnd else total
  }

  /** The cells of rows in order, with their groups' ends. */
  function RowsSources(rows: seq<Row>, total: nat): seq<Source> {
    if rows == [] then []
    else
      var n := |rows| - 1;
      RowsSources(rows[..n], total) + RowSources(rows[n].cells, n, EndOf(rows[n], total))
  }

  function SectionRows(rows: seq<seq<Raw>>, at: nat, n: nat): seq<Row>
    requires n <= |rows|
  {
    seq(n, k requires 0 <= k < n => Row(rows[k], at + |rows|))
  }

  lemma {:induction false} RowsSourcesAppend(rows: seq<Row>, row: Row, total: nat)
    ensures RowsSources(rows + [row], total) ==
            RowsSources(rows, total) + RowSources(row.cells, |rows|, EndOf(row, total))
  {
    assert (rows + [row])[..|rows|] == rows;
  }

  lemma {:induction false} SectionSourcesAre(before: seq<Row>, rows: seq<seq<Raw>>, n: nat, total: nat)
    requires n <= |rows|
    ensures RowsSources(before + SectionRows(rows, |before|, n), total) ==
            RowsSources(before, total) + SectionSources(rows, |before|, n)
    decreases n
  {
    hide RowsSources, SectionRows, RowSources;
    if n == 0 {
      SectionRowsStep(before, rows, n);
    } else {
      SectionSourcesAre(before, rows, n - 1, total);
      SectionRowsStep(before, rows, n);
      SectionLength(rows, |before|, n - 1);
      RowsSourcesAppend(before + SectionRows(rows, |before|, n - 1), Row(rows[n - 1], |before| + |rows|), total);
    }
  }

  lemma {:induction false} SectionRowsStep(before: seq<Row>, rows: seq<seq<Raw>>, n: nat)
    requires n <= |rows|
    ensures n == 0 ==> before + SectionRows(rows, |before|, n) == before
    ensures n > 0 ==>
              before + SectionRows(rows, |before|, n) ==
                before + SectionRows(rows, |before|, n - 1) + [Row(rows[n - 1], |before| + |rows|)]
  {
  }

  lemma {:induction false} SectionLength(rows: seq<seq<Raw>>, at: nat, n: nat)
    requires n <= |rows|
    ensures |SectionRows(rows, at, n)| == n
  {
  }

  lemma {:induction false} SourcesAreRows(children: seq<Child>, total: nat)
    ensures SourcesOf(children, total) == RowsSources(RowsOf(children), total)
    decreases |children|
  {
    hide SourcesOf, RowsOf, RowsSources, SectionRows, RowSources, RowCount;
    if children == [] {
      NoSources(children, total);
    } else {
      var n := |children| - 1;
      SourcesAreRows(children[..n], total);
      RowsAreCounted(children[..n]);
      SourcesUnfold(children, total);
      RowsUnfold(children);
      var before := RowsOf(children[..n]);
      if children[n].Tr? {
        RowsSourcesAppend(before, Row(children[n].cells, 0), total);
      } else {
        SectionSourcesAre(before, children[n].rows, |children[n].rows|, total);
      }
    }
  }

  lemma {:induction false} NoSources(children: seq<Child>, total: nat)
    requires children == []
    ensures SourcesOf(children, total) == [] && RowsOf(children) == [] && RowsSources([], total) == []
  {
  }

  lemma {:induction false} SourcesUnfold(children: seq<Child>, total: nat)
    requires children != []
    ensures var before, last := children[..|children| - 1], children[|children| - 1];
            && (last.Tr? ==>
                  SourcesOf(children, total) ==
                    SourcesOf(before, total) + RowSources(last.cells, RowCount(before), total))
            && (last.Section? ==>
                  SourcesOf(children, total) ==
                    SourcesOf(before, total) + SectionSources(last.rows, RowCount(before), |last.rows|))
  {
    hide RowSources, SectionSources;
  }

  lemma {:induction false} RowsUnfold(children: seq<Child>)
    requires children != []
    ensures var before, last := RowsOf(children[..|children| - 1]), children[|children| - 1];
            && (last.Tr? ==> RowsOf(children) == before + [Row(last.cells, 0)])
            && (last.Section? ==> RowsOf(children) == before + SectionRows(last.rows, |before|, |last.rows|))
  {
  }

  /** The items of a table's spans are its source cells, in document order. */
  lemma {:induction false} ItemsAreSources(all: seq<Row>, n: nat)
    requires Grouped(all) && n <= |all|
    ensures Items(SpansOf(all)[..n]) == ItemsOfSources(RowsSources(all[..n], |all|))
    decreases n
  {
    if n > 0 {
      ItemsAreSources(all, n - 1);
      var spans := SpansOf(all);
      assert spans[..n][..n - 1] == spans[..n - 1] && all[..n][..n - 1] == all[..n - 1];
      RowItemsAreSources(all, n - 1);
      SourcesAppend(RowsSources(all[..n - 1], |all|), RowSources(all[n - 1].cells, n - 1, EndOf(all[n - 1], |all|)));
    }
  }

  lemma {:induction false} RowItemsAreSources(all: seq<Row>, r: nat)
    requires Grouped(all) && r < |all|
    ensures RowItems(r, SpansOf(all)[r]) == ItemsOfSources(RowSources(all[r].cells, r, EndOf(all[r], |all|)))
  {
    assert r < GroupEnd(all, r) && EndOf(all[r], |all|) == GroupEnd(all, r);
  }

  /** A placed cell in its own row, as wide as written and at least one, as high as
      written and at least one but inside its group, or as high as what is left of the
      group when that is asked for. */
  ghost predicate Reads(x: Source, y: Cell) {
    && y.row == x.row < x.end
    && y.w == (if x.raw.colspan < 1 then 1 else x.raw.colspan)
    && y.h == (if x.raw.rest then x.end - x.row
               else Least(if x.raw.rowspan < 1 then 1 else x.raw.rowspan, x.end - x.row))
  }

  /** For every table where nothing is dropped: the n-th placed cell is the n-th cell of
      the source in document order, with the spans it asks for. */
  lemma {:induction false} PlacedInDocumentOrder(children: seq<Child>, n: nat)
    requires Grouped(RowsOf(children)) ==> Place(Items(SpansOf(RowsOf(children)))).dropped.None?
    requires n < |SourcesOf(children, RowCount(children))|
    ensures Grouped(RowsOf(children))
    ensures var placed, sources :=
            Place(Items(SpansOf(RowsOf(children)))).cells, SourcesOf(children, RowCount(children));
            |placed| == |sources| && Reads(sources[n], placed[n])
  {
    TableItems(children);
    var sources := SourcesOf(children, RowCount(children));
    TableEnds(children, n);
    hide Place, Items, SpansOf, RowsOf, SourcesOf, RowCount, Grouped;
    hide ItemOf, ItemsOfSources, Least;
    SourceItem(sources, n);
    PlacedItem(Items(SpansOf(RowsOf(children))), n);
    PlacedWidth(children, n);
    ItemReads(sources[n]);
  }

  lemma {:induction false} SourceItem(xs: seq<Source>, n: nat)
    requires n < |xs|
    ensures |ItemsOfSources(xs)| == |xs| && ItemsOfSources(xs)[n] == ItemOf(xs[n])
  {
  }

  lemma {:induction false} ItemReads(x: Source)
    requires x.row < x.end && ItemOf(x).w < MAX_SPAN
    ensures ItemOf(x).row == x.row && ItemOf(x).w == if x.raw.colspan < 1 then 1 else x.raw.colspan
    ensures ItemOf(x).h == if x.raw.rest then x.end - x.row
                           else Least(if x.raw.rowspan < 1 then 1 else x.raw.rowspan, x.end - x.row)
  {
  }

  lemma {:induction false} TableItems(children: seq<Child>)
    ensures Grouped(RowsOf(children))
    ensures Items(SpansOf(RowsOf(children))) == ItemsOfSources(SourcesOf(children, RowCount(children)))
  {
    RowsAreGrouped(children);
    RowsAreCounted(children);
    var rows := RowsOf(children);
    SourcesAreRows(children, |rows|);
    hide Items, SpansOf, RowsOf, SourcesOf, RowsSources, ItemsOfSources, Grouped;
    ItemsAreSources(rows, |rows|);
    SpansLength(rows);
    assert SpansOf(rows)[..|rows|] == SpansOf(rows) && rows[..|rows|] == rows;
  }

  lemma {:induction false} SpansLength(rows: seq<Row>)
    requires Grouped(rows)
    ensures |SpansOf(rows)| == |rows|
  {
  }

  lemma {:induction false} TableEnds(children: seq<Child>, n: nat)
    requires n < |SourcesOf(children, RowCount(children))|
    ensures var x := SourcesOf(children, RowCount(children))[n]; x.row < x.end
  {
    RowsAreGrouped(children);
    RowsAreCounted(children);
    var rows := RowsOf(children);
    SourcesAreRows(children, |rows|);
    hide RowsOf, SourcesOf, RowsSources, Grouped;
    assert rows[..|rows|] == rows;
    SourceEnds(rows, |rows|, n);
  }

  lemma {:induction false} SourceEnds(all: seq<Row>, m: nat, n: nat)
    requires Grouped(all) && m <= |all| && n < |RowsSources(all[..m], |all|)|
    ensures var x := RowsSources(all[..m], |all|)[n]; x.row < x.end
    decreases m
  {
    if m > 0 {
      assert all[..m][..m - 1] == all[..m - 1];
      if n < |RowsSources(all[..m - 1], |all|)| {
        SourceEnds(all, m - 1, n);
      } else {
        assert m - 1 < GroupEnd(all, m - 1);
      }
    }
  }

  /** A placed cell lies inside the column limit, so its width was not clamped. */
  lemma {:induction false} PlacedWidth(children: seq<Child>, n: nat)
    requires Grouped(RowsOf(children)) && n < |Place(Items(SpansOf(RowsOf(children)))).cells|
    ensures Place(Items(SpansOf(RowsOf(children)))).cells[n].w <= MAX_COLUMNS < MAX_SPAN
  {
    TableIsWellPlaced(children);
  }
}
