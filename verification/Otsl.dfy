/** The OTSL table reader (src/mapping/otsl.cpp): lexing, the two-pass row scan,
    and span resolution, with the encoding it inverts. */
module Otsl {
  import opened Common
  import opened Grids

  datatype Token = Token(tag: string, text: string)

  predicate IsAnchor(tag: string) {
    tag == "fcel" || tag == "ecel" || tag == "ched" || tag == "rhed" || tag == "srow"
  }

  predicate FillsAcross(tag: string) {
    tag == "lcel" || tag == "xcel"
  }

  predicate FillsDown(tag: string) {
    tag == "ucel" || tag == "xcel"
  }

  predicate IsCell(tag: string) {
    IsAnchor(tag) || FillsAcross(tag) || FillsDown(tag)
  }

  // ---- lexing ------------------------------------------------------------

  predicate Letter(ch: char) {
    'a' <= ch <= 'z' || 'A' <= ch <= 'Z'
  }

  /** A token opens at `i`: a '<' with a letter after it. */
  predicate TagAt(s: string, i: nat) {
    i + 1 < |s| && s[i] == '<' && Letter(s[i + 1])
  }

  /** The first token opener, or the length of the text. */
  function FindTag(s: string): (n: nat)
    ensures n <= |s| && (n < |s| ==> TagAt(s, n)) && forall i :: 0 <= i < n ==> !TagAt(s, i)
  {
    if s == [] || TagAt(s, 0) then 0
    else
      assert forall i :: 1 <= i < |s| ==> (TagAt(s, i) <==> TagAt(s[1..], i - 1));
      1 + FindTag(s[1..])
  }

  predicate Space(ch: char) {
    ch == ' ' || ch == '\t' || ch == '\r' || ch == '\n'
  }

  function Trim(s: string): string {
    if s == [] then s
    else if Space(s[0]) then Trim(s[1..])
    else if Space(s[|s| - 1]) then Trim(s[..|s| - 1])
    else s
  }

  /** Every token of a text: a tag name up to '>', then the text up to the next
      opener. A tag that never ends ends the stream. */
  function Lex(s: string): seq<Token>
    decreases |s|
  {
    var rest := s[FindTag(s)..];
    var close := Find(rest, '>');
    if close == |rest| then []
    else
      var tail := rest[close + 1..];
      var n := FindTag(tail);
      [Token(rest[1..close], Trim(tail[..n]))] + Lex(tail[n..])
  }

  method FindTagFrom(body: string, from: nat) returns (open: nat)
    requires from <= |body|
    ensures open == from + FindTag(body[from..])
  {
    open := from + Find(body[from..], '<');
    while open < |body| && !TagAt(body, open)
      invariant from <= open <= |body| && (open < |body| ==> body[open] == '<')
      invariant forall i :: from <= i < open ==> !TagAt(body, i)
    {
      var next := open + 1 + Find(body[open + 1..], '<');
      forall i | open < i < next ensures !TagAt(body, i) {
        assert body[open + 1..][i - open - 1] == body[i];
      }
      open := next;
    }
    ghost var n := FindTag(body[from..]);
    forall i | from <= i < |body| ensures TagAt(body, i) <==> TagAt(body[from..], i - from) {
    }
    assert from + n < |body| ==> TagAt(body, from + n);
    assert open < |body| ==> TagAt(body[from..], open - from);
  }

  /** One token from `pos`, or an empty tag at the end of the stream. */
  method NextToken(body: string, pos: nat) returns (tag: string, text: string, next: nat)
    requires pos <= |body|
    ensures pos <= next <= |body|
    ensures if Lex(body[pos..]) == [] then tag == "" && next == |body|
            else tag != "" && pos < next && Lex(body[pos..]) == [Token(tag, text)] + Lex(body[next..])
  {
    var open := FindTagFrom(body, pos);
    var close := open + Find(body[open..], '>');
    if close == |body| {
      LexEnds(body, pos, open);
      return "", "", |body|;
    }
    tag := body[open + 1..close];
    next := FindTagFrom(body, close + 1);
    text := Trim(body[close + 1..next]);
    LexStep(body, pos, open, close, next);
  }

  lemma {:induction false} LexNothing()
    ensures Lex("") == []
  {
  }

  lemma {:induction false} LexEnds(body: string, pos: nat, open: nat)
    requires pos <= open <= |body| && open == pos + FindTag(body[pos..]) && Find(body[open..], '>') == |body| - open
    ensures Lex(body[pos..]) == []
  {
    assert body[pos..][open - pos..] == body[open..];
  }

  lemma {:induction false} LexHead(s: string, rest: string, close: nat, tail: string, n: nat)
    requires rest == s[FindTag(s)..] && close == Find(rest, '>') < |rest| && tail == rest[close + 1..] &&
             n == FindTag(tail)
    ensures 1 < close && Lex(s) == [Token(rest[1..close], Trim(tail[..n]))] + Lex(tail[n..])
  {
    hide Trim;
    assert TagAt(s, FindTag(s)) && rest[0] == '<' && Letter(rest[1]) && rest[close] == '>';
  }

  lemma {:induction false} LexStep(body: string, pos: nat, open: nat, close: nat, next: nat)
    requires pos <= open <= close < |body| && open == pos + FindTag(body[pos..]) &&
             close == open + Find(body[open..], '>')
    requires next == close + 1 + FindTag(body[close + 1..])
    ensures open + 1 < close
    ensures Lex(body[pos..]) == [Token(body[open + 1..close], Trim(body[close + 1..next]))] + Lex(body[next..])
  {
    hide Lex, FindTag, Find, Trim, TagAt;
    var rest, tail := body[open..], body[close + 1..];
    assert body[pos..][open - pos..] == rest by { Slices(body, pos, open, |body|); }
    assert rest[close - open + 1..] == tail by { Slices(body, open, close + 1, |body|); }
    LexHead(body[pos..], rest, close - open, tail, next - close - 1);
    assert rest[1..close - open] == body[open + 1..close] by { Slices(body, open, open + 1, close); }
    assert tail[..next - close - 1] == body[close + 1..next] by { Slices(body, close + 1, close + 1, next); }
    assert tail[next - close - 1..] == body[next..] by { Slices(body, close + 1, next, |body|); }
  }

  lemma {:induction false} Slices(s: string, a: nat, b: nat, c: nat)
    requires a <= b <= c <= |s|
    ensures s[a..][b - a..c - a] == s[b..c]
    ensures c == |s| ==> s[a..][b - a..] == s[b..]
  {
  }

  // ---- rows --------------------------------------------------------------

  /** Finished rows and the row being filled. */
  datatype Lines = Lines(done: seq<seq<Token>>, open: seq<Token>)

  function Feed(l: Lines, t: Token): Lines {
    if t.tag == "nl" then
      if l.open == [] then l else Lines(l.done + [l.open], [])
    else if !IsCell(t.tag) then l
    else if t.tag == "srow" && l.open != [] then Lines(l.done + [l.open], [t])
    else l.(open := l.open + [t])
  }

  function LinesOf(tokens: seq<Token>): Lines {
    if tokens == [] then Lines([], []) else Feed(LinesOf(tokens[..|tokens| - 1]), tokens[|tokens| - 1])
  }

  /** Every row of the source, uncut. */
  function Rows(l: Lines): seq<seq<Token>> {
    if l.open == [] then l.done else l.done + [l.open]
  }

  function SourceRows(body: string): seq<seq<Token>> {
    Rows(LinesOf(Lex(body)))
  }

  function Width(rows: seq<seq<Token>>): (w: nat)
    ensures forall r :: 0 <= r < |rows| ==> |rows[r]| <= w
    ensures rows == [] || exists r :: 0 <= r < |rows| && |rows[r]| == w
  {
    if rows == [] then 0
    else
      var rest, last := Width(rows[..|rows| - 1]), |rows[|rows| - 1]|;
      if rest < last then last else rest
  }

  /** The leading R rows, each cut to its first C tokens. */
  function Window(rows: seq<seq<Token>>, R: nat, C: nat): (kept: seq<seq<Token>>)
    ensures |kept| == R
  {
    seq(R, r requires 0 <= r < R => if r < |rows| then rows[r][..Least(|rows[r]|, C)] else [])
  }

  /** The counters and the stored tokens of a scan, against the rows read so far. */
  ghost predicate Scanned(l: Lines, row: nat, col: nat, rows: nat, cols: nat, kept: seq<seq<Token>>, R: nat, C: nat) {
    && row == |l.done| && col == |l.open|
    && rows == |Rows(l)| && cols == Width(Rows(l)) && kept == Window(Rows(l), R, C)
  }

  lemma {:induction false} ScannedBreak(l: Lines, row: nat, col: nat, rows: nat, cols: nat, kept: seq<seq<Token>>,
      R: nat, C: nat)
    requires Scanned(l, row, col, rows, cols, kept, R, C) && l.open != []
    ensures Scanned(Lines(l.done + [l.open], []), row + 1, 0, rows, cols, kept, R, C)
  {
  }

  lemma {:induction false} ScannedCell(l: Lines, t: Token, row: nat, col: nat, rows: nat, cols: nat,
      kept: seq<seq<Token>>, R: nat, C: nat)
    requires Scanned(l, row, col, rows, cols, kept, R, C)
    ensures var now := if row < R && col < C then kept[row := kept[row] + [t]] else kept;
            Scanned(l.(open := l.open + [t]), row, col + 1, if rows < row + 1 then row + 1 else rows,
                    if cols < col + 1 then col + 1 else cols, now, R, C)
  {
    hide Width, Window;
    ShapeCell(l, t);
    WindowCell(l, t, R, C);
  }

  lemma {:induction false} ShapeCell(l: Lines, t: Token)
    ensures var m, cols := Rows(l.(open := l.open + [t])), Width(Rows(l));
            |m| == |l.done| + 1 && Width(m) == if cols < |l.open| + 1 then |l.open| + 1 else cols
  {
    var m := Rows(l.(open := l.open + [t]));
    assert m[..|l.done|] == l.done;
    assert l.open != [] ==> Rows(l)[..|l.done|] == l.done;
  }

  lemma {:induction false} WindowCell(l: Lines, t: Token, R: nat, C: nat)
    ensures var kept, row := Window(Rows(l), R, C), |l.done|;
            Window(Rows(l.(open := l.open + [t])), R, C) ==
            if row < R && |l.open| < C then kept[row := kept[row] + [t]] else kept
  {
    var m := Rows(l.(open := l.open + [t]));
    var kept, row, col := Window(Rows(l), R, C), |l.done|, |l.open|;
    var now := if row < R && col < C then kept[row := kept[row] + [t]] else kept;
    var goal := Window(m, R, C);
    forall r | 0 <= r < R ensures now[r] == goal[r] {
      if r == row {
        assert m[r] == l.open + [t];
        if col < C {
          assert kept[r] == l.open;
        } else {
          assert (l.open + [t])[..C] == l.open[..C];
        }
      } else if r < row {
        assert m[r] == l.done[r] == Rows(l)[r];
      }
    }
  }

  lemma {:induction false} ScannedCounts(l: Lines, row: nat, col: nat, rows: nat, cols: nat, kept: seq<seq<Token>>,
      R: nat, C: nat)
    requires Scanned(l, row, col, rows, cols, kept, R, C)
    ensures (col > 0 <==> l.open != []) && |kept| == R
  {
  }

  lemma {:induction false} ScannedStart(R: nat, C: nat)
    ensures Scanned(LinesOf([]), 0, 0, 0, 0, seq(R, _ => []), R, C)
  {
  }

  lemma {:induction false} LinesAppend(tokens: seq<Token>, t: Token)
    ensures LinesOf(tokens + [t]) == Feed(LinesOf(tokens), t)
  {
    assert (tokens + [t])[..|tokens|] == tokens;
  }

  /** One token of the scan: the counters move on, and the visitor stores the
      token when it is a cell inside R x C. */
  method ScanToken(t: Token, ghost l: Lines, row0: nat, col0: nat, rows0: nat, cols0: nat, kept0: seq<seq<Token>>,
      R: nat, C: nat)
      returns (row: nat, col: nat, rows: nat, cols: nat, kept: seq<seq<Token>>)
    requires Scanned(l, row0, col0, rows0, cols0, kept0, R, C)
    ensures Scanned(Feed(l, t), row, col, rows, cols, kept, R, C)
  {
    hide Scanned, IsCell;
    row, col, rows, cols, kept := row0, col0, rows0, cols0, kept0;
    ScannedCounts(l, row, col, rows, cols, kept, R, C);
    if t.tag == "nl" {
      if col > 0 {
        ScannedBreak(l, row, col, rows, cols, kept, R, C);
        row, col := row + 1, 0;
      }
      return;
    }
    if !IsCell(t.tag) {
      return;
    }
    ghost var m := l;
    if t.tag == "srow" && col > 0 {
      ScannedBreak(l, row, col, rows, cols, kept, R, C);
      m := Lines(l.done + [l.open], []);
      assert m.open + [t] == [t];
      row, col := row + 1, 0;
    }
    ScannedCell(m, t, row, col, rows, cols, kept, R, C);
    if row < R && col < C {
      kept := kept[row := kept[row] + [t]];
    }
    col := col + 1;
    rows := if rows < row + 1 then row + 1 else rows;
    cols := if cols < col then col else cols;
  }

  /** The row scan. The visitor stores the tokens that lie inside R x C, so the
      shape pass, which stores nothing, is the scan with an empty window. */
  method ScanRows(body: string, R: nat, C: nat) returns (rows: nat, cols: nat, kept: seq<seq<Token>>)
    ensures rows == |SourceRows(body)| && cols == Width(SourceRows(body))
    ensures kept == Window(SourceRows(body), R, C)
  {
    hide Lex, LinesOf, Feed, Scanned, Rows, Width, Window;
    var row: nat, col: nat, pos: nat := 0, 0, 0;
    rows, cols := 0, 0;
    kept := seq(R, _ => []);
    ghost var seen: seq<Token> := [];
    ScannedStart(R, C);
    assert body[0..] == body;
    while pos < |body|
      invariant pos <= |body| && Lex(body) == seen + Lex(body[pos..])
      invariant Scanned(LinesOf(seen), row, col, rows, cols, kept, R, C)
      decreases |body| - pos
    {
      var tag, text, next := NextToken(body, pos);
      if tag == "" {
        break;
      }
      pos := next;
      var t := Token(tag, text);
      LinesAppend(seen, t);
      row, col, rows, cols, kept := ScanToken(t, LinesOf(seen), row, col, rows, cols, kept, R, C);
      seen := seen + [t];
    }
    LexNothing();
    assert pos == |body| ==> body[pos..] == "";
    assert seen == Lex(body);
    ScannedEnd(seen, row, col, rows, cols, kept, R, C);
  }

  lemma {:induction false} ScannedEnd(seen: seq<Token>, row: nat, col: nat, rows: nat, cols: nat, kept: seq<seq<Token>>,
      R: nat, C: nat)
    requires Scanned(LinesOf(seen), row, col, rows, cols, kept, R, C)
    ensures var all := Rows(LinesOf(seen)); rows == |all| && cols == Width(all) && kept == Window(all, R, C)
  {
  }

  // ---- spans -------------------------------------------------------------

  /** How many fillers run to the right from column `c`. */
  function RunAcross(row: seq<Token>, c: nat): (n: nat)
    requires c <= |row|
    ensures c + n <= |row| && (forall k :: c <= k < c + n ==> FillsAcross(row[k].tag))
    ensures c + n < |row| ==> !FillsAcross(row[c + n].tag)
    decreases |row| - c
  {
    if c < |row| && FillsAcross(row[c].tag) then 1 + RunAcross(row, c + 1) else 0
  }

  predicate FillsDownAt(rows: seq<seq<Token>>, r: nat, c: nat) {
    r < |rows| && c < |rows[r]| && FillsDown(rows[r][c].tag)
  }

  function RunDown(rows: seq<seq<Token>>, r: nat, c: nat): (n: nat)
    requires r <= |rows|
    ensures r + n <= |rows| && (forall k :: r <= k < r + n ==> FillsDownAt(rows, k, c)) && !FillsDownAt(rows, r + n, c)
    decreases |rows| - r
  {
    if FillsDownAt(rows, r, c) then 1 + RunDown(rows, r + 1, c) else 0
  }

  predicate AnchorAt(rows: seq<seq<Token>>, r: nat, c: nat) {
    r < |rows| && c < |rows[r]| && IsAnchor(rows[r][c].tag)
  }

  function ContentOf(t: Token): Content {
    Content(if t.tag == "ecel" then "" else t.text, t.tag == "ched", t.tag == "rhed", t.tag == "srow")
  }

  /** The cell anchored at a position. */
  function CellAt(rows: seq<seq<Token>>, r: nat, c: nat): Cell
    requires r < |rows| && c < |rows[r]|
  {
    Cell(r, c, r + 1 + RunDown(rows, r + 1, c), c + 1 + RunAcross(rows[r], c + 1), ContentOf(rows[r][c]))
  }

  /** The cells anchored in the first `c` columns of row `r`. */
  function RowCells(rows: seq<seq<Token>>, r: nat, c: nat): seq<Cell>
    requires r < |rows| && c <= |rows[r]|
  {
    if c == 0 then []
    else RowCells(rows, r, c - 1) + if AnchorAt(rows, r, c - 1) then [CellAt(rows, r, c - 1)] else []
  }

  /** The cells anchored in the first `r` rows. */
  function CellsAbove(rows: seq<seq<Token>>, r: nat): seq<Cell>
    requires r <= |rows|
  {
    if r == 0 then [] else CellsAbove(rows, r - 1) + RowCells(rows, r - 1, |rows[r - 1]|)
  }

  function CellsOf(rows: seq<seq<Token>>): seq<Cell> {
    CellsAbove(rows, |rows|)
  }

  /** Positions before (r, c) in reading order. */
  predicate Earlier(r: nat, c: nat, r1: nat, c1: nat) {
    r < r1 || (r == r1 && c < c1)
  }

  /** A list holding one cell per anchor before a position, in reading order. */
  ghost predicate ListsAnchors(cells: seq<Cell>, rows: seq<seq<Token>>, r1: nat, c1: nat) {
    && (forall x :: x in cells ==>
          AnchorAt(rows, x.top, x.left) && Earlier(x.top, x.left, r1, c1) && x == CellAt(rows, x.top, x.left))
    && (forall r, c :: AnchorAt(rows, r, c) && Earlier(r, c, r1, c1) ==> CellAt(rows, r, c) in cells)
    && RowMajor(cells)
  }

  lemma {:induction false} ListsMore(cells: seq<Cell>, rows: seq<seq<Token>>, r: nat, c: nat)
    requires r < |rows| && c < |rows[r]| && ListsAnchors(cells, rows, r, c)
    ensures ListsAnchors(cells + if AnchorAt(rows, r, c) then [CellAt(rows, r, c)] else [], rows, r, c + 1)
  {
    hide RunAcross, RunDown, ContentOf, IsAnchor;
    if AnchorAt(rows, r, c) {
      var y := CellAt(rows, r, c);
      forall i | 0 <= i < |cells| ensures AnchoredBefore(cells[i], y) {
        assert cells[i] in cells;
      }
    }
  }

  lemma {:induction false} ListsRow(cells: seq<Cell>, rows: seq<seq<Token>>, r: nat, c: nat)
    requires r < |rows| && c <= |rows[r]| && ListsAnchors(cells, rows, r, 0)
    ensures ListsAnchors(cells + RowCells(rows, r, c), rows, r, c)
    decreases c
  {
    hide ListsAnchors, AnchorAt, CellAt;
    if c == 0 {
      assert cells + RowCells(rows, r, c) == cells;
    } else {
      ListsRow(cells, rows, r, c - 1);
      ListsMore(cells + RowCells(rows, r, c - 1), rows, r, c - 1);
      assert cells + RowCells(rows, r, c)
          == cells + RowCells(rows, r, c - 1) + if AnchorAt(rows, r, c - 1) then [CellAt(rows, r, c - 1)] else [];
    }
  }

  lemma {:induction false} ListsAbove(rows: seq<seq<Token>>, r: nat)
    requires r <= |rows|
    ensures ListsAnchors(CellsAbove(rows, r), rows, r, 0)
    decreases r
  {
    hide CellAt, IsAnchor;
    if r > 0 {
      hide ListsAnchors;
      ListsAbove(rows, r - 1);
      ListsRow(CellsAbove(rows, r - 1), rows, r - 1, |rows[r - 1]|);
      RowEnds(CellsAbove(rows, r), rows, r - 1);
    }
  }

  lemma {:induction false} RowEnds(cells: seq<Cell>, rows: seq<seq<Token>>, r: nat)
    requires r < |rows| && ListsAnchors(cells, rows, r, |rows[r]|)
    ensures ListsAnchors(cells, rows, r + 1, 0)
  {
    hide CellAt, IsAnchor;
  }

  /** The resolved cells are one per anchor, in strict reading order, and every
      span ends inside the rows it was read from. */
  lemma {:induction false} CellsAreSound(rows: seq<seq<Token>>)
    ensures ListsAnchors(CellsOf(rows), rows, |rows|, 0) && RowMajor(CellsOf(rows))
    ensures forall x :: x in CellsOf(rows) ==> x.bottom <= |rows| && x.right <= |rows[x.top]| <= Width(rows)
  {
    ListsAbove(rows, |rows|);
  }

  /** Span resolution as the source loops it. */
  method ResolveSpans(rows: seq<seq<Token>>) returns (cells: seq<Cell>)
    ensures cells == CellsOf(rows)
  {
    hide CellAt, IsAnchor;
    cells := [];
    for r := 0 to |rows|
      invariant cells == CellsAbove(rows, r)
    {
      for c := 0 to |rows[r]|
        invariant cells == CellsAbove(rows, r) + RowCells(rows, r, c)
      {
        if IsAnchor(rows[r][c].tag) {
          var x := ResolveCell(rows, r, c);
          cells := cells + [x];
        }
      }
    }
  }

  method ResolveCell(rows: seq<seq<Token>>, r: nat, c: nat) returns (x: Cell)
    requires r < |rows| && c < |rows[r]|
    ensures x == CellAt(rows, r, c)
  {
    var across: nat, cc := 1, c + 1;
    while cc < |rows[r]| && FillsAcross(rows[r][cc].tag)
      invariant c < cc <= |rows[r]| && across == cc - c &&
                across + RunAcross(rows[r], cc) == 1 + RunAcross(rows[r], c + 1)
    {
      across, cc := across + 1, cc + 1;
    }
    var down: nat, rr := 1, r + 1;
    while rr < |rows| && c < |rows[rr]| && FillsDown(rows[rr][c].tag)
      invariant r < rr <= |rows| && down == rr - r && down + RunDown(rows, rr, c) == 1 + RunDown(rows, r + 1, c)
    {
      down, rr := down + 1, rr + 1;
    }
    x := Cell(r, c, r + down, c + across, ContentOf(rows[r][c]));
  }

  // ---- the whole reader --------------------------------------------------

  /** What the reader makes of a text: the kept part of its rows. */
  function KeptRows(body: string): seq<seq<Token>> {
    var all := SourceRows(body);
    var shape := KeptShape(|all|, Width(all));
    Window(all, shape.0, shape.1)
  }

  /** The two scans refine cutting the materialised rows: kept tokens stand where
      the source has them and nothing else is kept. */
  lemma {:induction false} WindowKeepsPlaces(rows: seq<seq<Token>>, R: nat, C: nat)
    requires R <= |rows|
    ensures var kept := Window(rows, R, C);
            && Width(kept) <= C
            && (forall r :: 0 <= r < R ==> |kept[r]| == Least(|rows[r]|, C))
            && (forall r, c :: 0 <= r < R && 0 <= c < |kept[r]| ==> c < |rows[r]| && kept[r][c] == rows[r][c])
  {
  }

  lemma {:induction false} AnchorsAreVisible(rows: seq<seq<Token>>)
    ensures forall r: nat, c: nat :: AnchorAt(rows, r, c) ==> LastCover(CellsOf(rows), r, c) == CellAt(rows, r, c)
  {
    CellsAreSound(rows);
    hide CellsOf, LastCover, RowMajor, IsAnchor, RunAcross, RunDown, ContentOf;
    forall r: nat, c: nat | AnchorAt(rows, r, c) ensures LastCover(CellsOf(rows), r, c) == CellAt(rows, r, c) {
      assert Earlier(r, c, |rows|, 0);
      VisibleAtAnchor(CellsOf(rows), CellAt(rows, r, c));
    }
  }

  lemma {:induction false} KeptFits(rows: nat, cols: nat, w: nat)
    requires w <= KeptShape(rows, cols).1
    ensures KeptShape(rows, cols).0 * w <= MAX_CELLS
  {
    var shape := KeptShape(rows, cols);
    hide KeptShape;
    assert shape.0 * w <= shape.0 * shape.1;
  }

  /** For every text, malformed or not: the kept tokens stand where the source has
      them, the grid stays inside the caps, every span ends inside it, and every
      anchor shows at its own position. */
  lemma {:induction false} EveryTextIsLaidOut(body: string)
    ensures var all, kept := SourceRows(body), KeptRows(body);
            && |kept| <= |all| && |kept| * Width(kept) <= MAX_CELLS
            && (forall r, c :: 0 <= r < |kept| && 0 <= c < |kept[r]| ==> c < |all[r]| && kept[r][c] == all[r][c])
            && (forall x :: x in CellsOf(kept) ==> x.bottom <= |kept| && x.right <= Width(kept))
            && forall r: nat, c: nat :: AnchorAt(kept, r, c) ==> LastCover(CellsOf(kept), r, c) == CellAt(kept, r, c)
  {
    hide CellsOf, CellAt, AnchorAt, LastCover, SourceRows, Width, Window, KeptShape, ListsAnchors, RowMajor;
    var all := SourceRows(body);
    var shape := KeptShape(|all|, Width(all));
    WindowKeepsPlaces(all, shape.0, shape.1);
    KeptFits(|all|, Width(all), Width(KeptRows(body)));
    CellsAreSound(KeptRows(body));
    AnchorsAreVisible(KeptRows(body));
  }

  method ParseOtslGrid(body: string, size: Size) returns (ok: bool, data: TableData, cut: TableCut)
    ensures ok <==> SourceRows(body) != []
    ensures ok ==>
              var all, kept := SourceRows(body), KeptRows(body);
              && cut.sourceRows == |all| && cut.sourceCols == Width(all)
              && (cut.truncated <==> (data.rows, KeptShape(|all|, Width(all)).1) != (|all|, Width(all)))
              && data.rows == KeptShape(|all|, Width(all)).0 == |kept| && data.cols == Width(kept)
              && data.cells == CellsOf(kept)
              && (cut.gridOmitted <==> Cost(data.cells, size) > MAX_BYTES)
              && if cut.gridOmitted then data.grid == [] else Shows(data.grid, data.cells, data.rows, data.cols)
  {
    hide SourceRows, Width, Window, CellsOf, LastCover, Cost, KeptShape, ListsAnchors, RowMajor;
    data, cut := TableData(0, 0, [], []), TableCut(0, 0, false, false);
    var rows, cols, _ := ScanRows(body, 0, 0);
    if rows == 0 {
      return false, data, cut;
    }
    var shape := KeptShape(rows, cols);
    var _, _, kept := ScanRows(body, shape.0, shape.1);
    var width := WidestRow(kept);
    var cells := ResolveSpans(kept);
    CellsAreSound(kept);
    var affordable := Affordable(cells, size);
    var grid: Grid := [];
    if affordable {
      grid := StampAll(cells, |kept|, width);
    }
    data := TableData(|kept|, width, cells, grid);
    cut := TableCut(rows, cols, shape.0 < rows || shape.1 < cols, !affordable);
    ok := true;
  }

  method WidestRow(rows: seq<seq<Token>>) returns (width: nat)
    ensures width == Width(rows)
  {
    width := 0;
    for r := 0 to |rows|
      invariant width == Width(rows[..r])
    {
      assert rows[..r + 1][..r] == rows[..r];
      width := if width < |rows[r]| then |rows[r]| else width;
    }
    assert rows[..|rows|] == rows;
  }
}
