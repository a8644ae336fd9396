/** The rows of an OTSL token stream, told by the tokens alone: no cell is lost or
    moved, and a row starts exactly at a section cell or at the first cell after a
    row end. */
module OtslRows {
  import opened Otsl

  const CELLS: set<string> := {"fcel", "ecel", "ched", "rhed", "srow", "lcel", "ucel", "xcel"}

  function CellTokens(tokens: seq<Token>): seq<Token> {
    if tokens == [] then []
    else
      var last := tokens[|tokens| - 1];
      CellTokens(tokens[..|tokens| - 1]) + if last.tag in CELLS then [last] else []
  }

  function Flatten(rows: seq<seq<Token>>): seq<Token> {
    if rows == [] then [] else Flatten(rows[..|rows| - 1]) + rows[|rows| - 1]
  }

  /** Every cell so far is followed by a row end. */
  ghost predicate RowEnded(tokens: seq<Token>) {
    forall j :: 0 <= j < |tokens| && tokens[j].tag in CELLS ==>
      exists m :: j < m < |tokens| && tokens[m].tag == "nl"
  }

  /** How many rows the tokens start. */
  ghost function RowStarts(tokens: seq<Token>): nat {
    if tokens == [] then 0
    else
      var n := |tokens| - 1;
      var starts := tokens[n].tag in CELLS && (tokens[n].tag == "srow" || RowEnded(tokens[..n]));
      RowStarts(tokens[..n]) + if starts then 1 else 0
  }

  /** Rows are never empty and hold a section cell at their head only. */
  ghost predicate ProperRow(row: seq<Token>) {
    row != [] && forall c :: 0 < c < |row| ==> row[c].tag != "srow"
  }

  ghost predicate Holds(tokens: seq<Token>, l: Lines) {
    && Flatten(Rows(l)) == CellTokens(tokens) && |Rows(l)| == RowStarts(tokens)
    && (l.open == [] <==> RowEnded(tokens))
    && forall r :: 0 <= r < |Rows(l)| ==> ProperRow(Rows(l)[r])
  }

  lemma {:induction false} CellsAre(tag: string)
    ensures tag in CELLS <==> IsCell(tag)
    ensures "nl" !in CELLS && "srow" in CELLS
  {
  }

  lemma {:induction false} EndedNext(tokens: seq<Token>, t: Token)
    ensures RowEnded(tokens + [t]) <==> (t.tag == "nl" || (t.tag !in CELLS && RowEnded(tokens)))
  {
    var next, n := tokens + [t], |tokens|;
    assert next[n] == t;
    CellsAre(t.tag);
    if t.tag !in CELLS && RowEnded(tokens) {
      forall j | 0 <= j < |next| && next[j].tag in CELLS ensures exists m :: j < m < |next| && next[m].tag == "nl" {
        var m :| j < m < n && tokens[m].tag == "nl";
        assert next[m] == tokens[m];
      }
    }
    if t.tag != "nl" && RowEnded(next) {
      forall j | 0 <= j < n && tokens[j].tag in CELLS ensures exists m :: j < m < n && tokens[m].tag == "nl" {
        assert next[j] == tokens[j];
        var m :| j < m < |next| && next[m].tag == "nl";
        assert tokens[m] == next[m];
      }
    }
  }

  lemma {:induction false} FlattenMore(rows: seq<seq<Token>>, row: seq<Token>)
    ensures Flatten(rows + [row]) == Flatten(rows) + row
  {
    assert (rows + [row])[..|rows|] == rows;
  }

  lemma {:induction false} CountsNext(tokens: seq<Token>, t: Token)
    ensures CellTokens(tokens + [t]) == CellTokens(tokens) + if t.tag in CELLS then [t] else []
    ensures RowStarts(tokens + [t]) ==
              RowStarts(tokens) + if t.tag in CELLS && (t.tag == "srow" || RowEnded(tokens)) then 1 else 0
  {
    hide CELLS, RowEnded;
    assert (tokens + [t])[..|tokens|] == tokens;
  }

  lemma {:induction false} FeedHolds(tokens: seq<Token>, l: Lines, t: Token)
    requires Holds(tokens, l)
    ensures Holds(tokens + [t], Feed(l, t))
  {
    hide CELLS, RowEnded, Flatten, CellTokens, RowStarts, IsCell;
    EndedNext(tokens, t);
    CountsNext(tokens, t);
    CellsAre(t.tag);
    FlattenMore(l.done, l.open);
    FlattenMore(l.done, l.open + [t]);
    FlattenMore(l.done + [l.open], [t]);
    RowsNext(l, t);
  }

  lemma {:induction false} RowsNext(l: Lines, t: Token)
    requires forall r :: 0 <= r < |Rows(l)| ==> ProperRow(Rows(l)[r])
    ensures forall r :: 0 <= r < |Rows(Feed(l, t))| ==> ProperRow(Rows(Feed(l, t))[r])
  {
    hide IsCell;
    var rows := Rows(l);
    assert l.open != [] ==> rows[|l.done|] == l.open;
    assert forall r :: 0 <= r < |l.done| ==> rows[r] == l.done[r];
  }

  lemma {:induction false} LinesHold(tokens: seq<Token>)
    ensures Holds(tokens, LinesOf(tokens))
    decreases |tokens|
  {
    if tokens != [] {
      hide Holds, Feed;
      var n := |tokens| - 1;
      LinesHold(tokens[..n]);
      FeedHolds(tokens[..n], LinesOf(tokens[..n]), tokens[n]);
      assert tokens[..n] + [tokens[n]] == tokens;
    }
  }

  /** For every token stream, and so for each of its beginnings: the rows put end to
      end are its cell tokens in order, whatever else stands between them; there are
      as many rows as the tokens start; no row is empty, and none holds a section cell
      past its head. */
  lemma {:induction false} RowsKeepEveryCell(tokens: seq<Token>)
    ensures var rows := Rows(LinesOf(tokens));
            && Flatten(rows) == CellTokens(tokens) && |rows| == RowStarts(tokens)
            && forall r :: 0 <= r < |rows| ==>
                 rows[r] != [] && forall c :: 0 < c < |rows[r]| ==> rows[r][c].tag != "srow"
  {
    hide Flatten, CellTokens, RowStarts, RowEnded, LinesOf, Rows;
    LinesHold(tokens);
    var rows := Rows(LinesOf(tokens));
    assert forall r :: 0 <= r < |rows| ==> ProperRow(rows[r]);
  }
}
