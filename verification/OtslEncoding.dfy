/** The OTSL encoding of a tiled table: an anchor at the top left of each tile,
    "lcel" along its top row, "ucel" down its left column, "xcel" inside. The
    reader inverts it. */
module OtslEncoding {
  import opened Common
  import opened Grids
  import opened Otsl

  datatype Kind = Full | Empty | ColumnHeader | RowHeader | Section
  datatype Tile = Tile(top: nat, left: nat, bottom: nat, right: nat, kind: Kind, text: string)

  function TagOf(kind: Kind): string {
    match kind
    case Full => "fcel"
    case Empty => "ecel"
    case ColumnHeader => "ched"
    case RowHeader => "rhed"
    case Section => "srow"
  }

  predicate Holds(x: Tile, r: nat, c: nat) {
    x.top <= r < x.bottom && x.left <= c < x.right
  }

  ghost predicate Held(tiles: seq<Tile>, r: nat, c: nat) {
    exists i :: 0 <= i < |tiles| && Holds(tiles[i], r, c)
  }

  /** Rectangles inside R x C, listed by their anchors in reading order, that hold
      every position exactly once. */
  ghost predicate Tiling(tiles: seq<Tile>, R: nat, C: nat) {
    && (forall i :: 0 <= i < |tiles| ==> tiles[i].top < tiles[i].bottom <= R && tiles[i].left < tiles[i].right <= C)
    && (forall i, j :: 0 <= i < j < |tiles| ==> Earlier(tiles[i].top, tiles[i].left, tiles[j].top, tiles[j].left))
    && (forall r: nat, c: nat :: r < R && c < C ==> Held(tiles, r, c))
    && (forall i, j, r: nat, c: nat :: 0 <= i < j < |tiles| && Holds(tiles[i], r, c) ==> !Holds(tiles[j], r, c))
  }

  /** The tile that holds a position, when one does. */
  function Owner(tiles: seq<Tile>, r: nat, c: nat): (x: Tile)
    ensures Held(tiles, r, c) ==> x in tiles && Holds(x, r, c)
  {
    if tiles == [] then Tile(r, c, r + 1, c + 1, Empty, "")
    else if Holds(tiles[0], r, c) then tiles[0]
    else Owner(tiles[1..], r, c)
  }

  /** The token a tile writes at one of its positions. */
  function TokenAt(x: Tile, r: nat, c: nat): Token {
    if r == x.top && c == x.left then Token(TagOf(x.kind), x.text)
    else if r == x.top then Token("lcel", "")
    else if c == x.left then Token("ucel", "")
    else Token("xcel", "")
  }

  function EncodeRow(tiles: seq<Tile>, C: nat, r: nat): (row: seq<Token>)
    ensures |row| == C
  {
    seq(C, c requires 0 <= c < C => TokenAt(Owner(tiles, r, c), r, c))
  }

  /** The tokens of the first `r` rows. */
  function Encode(tiles: seq<Tile>, C: nat, r: nat): seq<Token> {
    if r == 0 then [] else Encode(tiles, C, r - 1) + EncodeRow(tiles, C, r - 1) + [Token("nl", "")]
  }

  function Render(tokens: seq<Token>): string {
    if tokens == [] then "" else "<" + tokens[0].tag + ">" + tokens[0].text + Render(tokens[1..])
  }

  /** The table as OTSL text. */
  function Write(tiles: seq<Tile>, R: nat, C: nat): string {
    Render(Encode(tiles, C, R))
  }

  // ---- lexing what was rendered ------------------------------------------

  ghost predicate PlainText(text: string) {
    Trim(text) == text && forall i :: 0 <= i < |text| ==> !TagAt(text, i)
  }

  ghost predicate Lexable(t: Token) {
    t.tag != "" && Letter(t.tag[0]) && '>' !in t.tag && PlainText(t.text)
  }

  lemma {:induction false} TextEnds(text: string, rest: string)
    requires forall i :: 0 <= i < |text| ==> !TagAt(text, i)
    requires rest == "" || TagAt(rest, 0)
    ensures FindTag(text + rest) == |text|
  {
    var s := text + rest;
    forall i | 0 <= i < |text| ensures !TagAt(s, i) {
      assert !TagAt(text, i);
      assert i + 1 < |text| ==> s[i + 1] == text[i + 1];
      assert i + 1 == |text| && rest != "" ==> s[i + 1] == rest[0];
    }
    if rest != "" {
      assert s[|text|] == rest[0] && s[|text| + 1] == rest[1];
      assert TagAt(s, |text|);
    }
  }

  lemma {:induction false} LexTag(tag: string, tail: string)
    requires tag != "" && Letter(tag[0]) && '>' !in tag
    ensures var s := "<" + tag + ">" + tail;
            FindTag(s) == 0 && Find(s, '>') == |tag| + 1 && s[1..|tag| + 1] == tag &&
              s[|tag| + 2..] == tail && TagAt(s, 0)
  {
    var s := "<" + tag + ">" + tail;
    assert s[1] == tag[0] && TagAt(s, 0);
    assert s[|tag| + 1] == '>';
    forall i | 0 <= i <= |tag| ensures s[i] != '>' {
      assert i > 0 ==> s[i] == tag[i - 1] && tag[i - 1] in tag;
    }
  }

  lemma {:induction false} LexRender(tokens: seq<Token>)
    requires forall t :: t in tokens ==> Lexable(t)
    ensures Lex(Render(tokens)) == tokens
    ensures tokens == [] || TagAt(Render(tokens), 0)
    decreases |tokens|
  {
    hide Lex, FindTag, Find, Trim, TagAt;
    if tokens != [] {
      LexRender(tokens[1..]);
      assert Lexable(tokens[0]);
      LexOne(tokens[0], Render(tokens[1..]));
      RenderFirst(tokens);
    } else {
      LexNothing();
    }
  }

  lemma {:induction false} RenderFirst(tokens: seq<Token>)
    requires tokens != []
    ensures Render(tokens) == "<" + tokens[0].tag + ">" + (tokens[0].text + Render(tokens[1..]))
  {
  }

  lemma {:induction false} LexOne(t: Token, rest: string)
    requires Lexable(t) && (rest == "" || TagAt(rest, 0))
    ensures var s := "<" + t.tag + ">" + (t.text + rest); TagAt(s, 0) && Lex(s) == [t] + Lex(rest)
  {
    var tail := t.text + rest;
    var s := "<" + t.tag + ">" + tail;
    LexTag(t.tag, tail);
    TextEnds(t.text, rest);
    hide Lex, FindTag, Find, Trim, TagAt;
    assert s[0..] == s && tail[..|t.text|] == t.text && tail[|t.text|..] == rest;
    LexHead(s, s, |t.tag| + 1, tail, |t.text|);
  }

  // ---- rows come back as they were written -------------------------------

  lemma {:induction false} TagsOfKinds(kind: Kind)
    ensures IsAnchor(TagOf(kind)) && !FillsAcross(TagOf(kind)) && !FillsDown(TagOf(kind)) && TagOf(kind) != "nl"
    ensures Letter(TagOf(kind)[0]) && '>' !in TagOf(kind) && (TagOf(kind) == "srow" <==> kind == Section)
  {
  }

  /** What is known of every token of an encoded row. */
  lemma {:induction false} WrittenToken(x: Tile, r: nat, c: nat)
    ensures var t := TokenAt(x, r, c);
            && IsCell(t.tag) && t.tag != "nl" && t.tag != "" && Letter(t.tag[0]) && '>' !in t.tag
            && (IsAnchor(t.tag) <==> r == x.top && c == x.left)
            && (FillsAcross(t.tag) <==> c != x.left)
            && (FillsDown(t.tag) <==> r != x.top)
            && (t.tag == "srow" <==> r == x.top && c == x.left && x.kind == Section)
            && (t.text == "" || t.text == x.text)
  {
    TagsOfKinds(x.kind);
  }

  /** Row breaks that section tokens cause inside a row. */
  function Breaks(row: seq<Token>): nat {
    if |row| <= 1 then 0
    else Breaks(row[..|row| - 1]) + if row[|row| - 1].tag == "srow" then 1 else 0
  }

  lemma {:induction false} NoBreaks(row: seq<Token>)
    ensures Breaks(row) == 0 <==> forall k :: 0 < k < |row| ==> row[k].tag != "srow"
    decreases |row|
  {
    if |row| > 1 {
      NoBreaks(row[..|row| - 1]);
    }
  }

  lemma {:induction false} FeedRow(tokens: seq<Token>, row: seq<Token>, k: nat)
    requires LinesOf(tokens).open == [] && 0 < k <= |row| && forall t :: t in row ==> IsCell(t.tag) && t.tag != "nl"
    ensures var l := LinesOf(tokens + row[..k]);
            l.open != [] && |l.done| == |LinesOf(tokens).done| + Breaks(row[..k]) &&
            (Breaks(row[..k]) == 0 ==> l == Lines(LinesOf(tokens).done, row[..k]))
    decreases k
  {
    hide LinesOf, IsCell, Feed;
    var t := row[k - 1];
    assert t in row;
    LinesAppend(tokens + row[..k - 1], t);
    assert tokens + row[..k] == tokens + row[..k - 1] + [t];
    FeedCell(LinesOf(tokens + row[..k - 1]), t);
    if k == 1 {
      assert tokens + row[..0] == tokens && row[..1] == [t];
    } else {
      FeedRow(tokens, row, k - 1);
      assert row[..k][..k - 1] == row[..k - 1] && row[..k] == row[..k - 1] + [t];
    }
  }

  lemma {:induction false} FeedCell(l: Lines, t: Token)
    requires IsCell(t.tag) && t.tag != "nl"
    ensures t.tag == "srow" && l.open != [] ==> Feed(l, t) == Lines(l.done + [l.open], [t])
    ensures t.tag != "srow" || l.open == [] ==> Feed(l, t) == Lines(l.done, l.open + [t])
  {
  }

  lemma {:induction false} FeedWholeRow(tokens: seq<Token>, row: seq<Token>)
    requires LinesOf(tokens).open == [] && row != [] && forall t :: t in row ==> IsCell(t.tag) && t.tag != "nl"
    ensures var l := LinesOf(tokens + row + [Token("nl", "")]);
            l.open == [] && |l.done| == |LinesOf(tokens).done| + 1 + Breaks(row) &&
            (Breaks(row) == 0 ==> l == Lines(LinesOf(tokens).done + [row], []))
  {
    FeedRow(tokens, row, |row|);
    assert row[..|row|] == row;
    LinesAppend(tokens + row, Token("nl", ""));
  }

  ghost predicate Writable(tiles: seq<Tile>) {
    forall x :: x in tiles ==> PlainText(x.text)
  }

  lemma {:induction false} EncodeRowFacts(tiles: seq<Tile>, R: nat, C: nat, r: nat)
    requires Tiling(tiles, R, C) && r < R && Writable(tiles)
    ensures forall t :: t in EncodeRow(tiles, C, r) ==> IsCell(t.tag) && t.tag != "nl" && Lexable(t)
  {
    var row := EncodeRow(tiles, C, r);
    forall t | t in row ensures IsCell(t.tag) && t.tag != "nl" && Lexable(t) {
      var c: nat :| c < C && row[c] == t;
      var x := Owner(tiles, r, c);
      assert Held(tiles, r, c);
      WrittenToken(x, r, c);
      assert PlainText(x.text) && PlainText("");
    }
  }

  lemma {:induction false} EncodeLexable(tiles: seq<Tile>, R: nat, C: nat, r: nat)
    requires Tiling(tiles, R, C) && r <= R && Writable(tiles)
    ensures forall t :: t in Encode(tiles, C, r) ==> Lexable(t)
    decreases r
  {
    hide Tiling, EncodeRow, Writable;
    if r > 0 {
      EncodeLexable(tiles, R, C, r - 1);
      EncodeRowFacts(tiles, R, C, r - 1);
      assert Lexable(Token("nl", ""));
    }
  }

  /** Every section tile starts its row. */
  ghost predicate SectionsLead(tiles: seq<Tile>) {
    forall x :: x in tiles && x.kind == Section ==> x.left == 0
  }

  lemma {:induction false} RowBreaks(tiles: seq<Tile>, R: nat, C: nat, r: nat)
    requires Tiling(tiles, R, C) && r < R
    ensures Breaks(EncodeRow(tiles, C, r)) == 0 <==>
            forall x :: x in tiles && x.kind == Section && x.top == r ==> x.left == 0
  {
    var row := EncodeRow(tiles, C, r);
    NoBreaks(row);
    forall c: nat | c < C
      ensures row[c].tag == "srow" <==> (var x := Owner(tiles, r, c); x.top == r && x.left == c && x.kind == Section)
    {
      WrittenToken(Owner(tiles, r, c), r, c);
    }
    forall x | x in tiles && x.kind == Section && x.top == r ensures row[x.left].tag == "srow" {
      AnchorOwned(tiles, R, C, x);
    }
  }

  lemma {:induction false} HeldBy(tiles: seq<Tile>, x: Tile, r: nat, c: nat)
    requires x in tiles && Holds(x, r, c)
    ensures Held(tiles, r, c)
  {
  }

  lemma {:induction false} OwnedOnce(tiles: seq<Tile>, R: nat, C: nat, x: Tile, r: nat, c: nat)
    requires Tiling(tiles, R, C) && x in tiles && Holds(x, r, c)
    ensures r < R && c < C && Owner(tiles, r, c) == x
  {
    var y := Owner(tiles, r, c);
    HeldBy(tiles, x, r, c);
    var i :| 0 <= i < |tiles| && tiles[i] == x;
    var j :| 0 <= j < |tiles| && tiles[j] == y;
    assert !(i < j) && !(j < i);
  }

  lemma {:induction false} OwnsIfHolds(tiles: seq<Tile>, R: nat, C: nat, x: Tile, r: nat, c: nat)
    requires Tiling(tiles, R, C) && x in tiles
    ensures Holds(x, r, c) ==> Owner(tiles, r, c) == x
  {
    if Holds(x, r, c) {
      OwnedOnce(tiles, R, C, x, r, c);
    }
  }

  lemma {:induction false} AnchorOwned(tiles: seq<Tile>, R: nat, C: nat, x: Tile)
    requires Tiling(tiles, R, C) && x in tiles
    ensures x.top < x.bottom <= R && x.left < x.right <= C && Owner(tiles, x.top, x.left) == x
  {
    OwnedOnce(tiles, R, C, x, x.top, x.left);
  }

  /** The encoded rows, as the reader should see them. */
  function Matrix(tiles: seq<Tile>, C: nat, r: nat): seq<seq<Token>> {
    seq(r, k requires 0 <= k < r => EncodeRow(tiles, C, k))
  }

  ghost predicate LeadsAbove(tiles: seq<Tile>, r: nat) {
    forall x :: x in tiles && x.kind == Section && x.top < r ==> x.left == 0
  }

  lemma {:induction false} LeadsOneMore(tiles: seq<Tile>, R: nat, C: nat, r: nat)
    requires Tiling(tiles, R, C) && r < R
    ensures LeadsAbove(tiles, r + 1) <==> LeadsAbove(tiles, r) && Breaks(EncodeRow(tiles, C, r)) == 0
  {
    hide Tiling, EncodeRow, Breaks;
    RowBreaks(tiles, R, C, r);
  }

  lemma {:induction false} RowsComeBack(tiles: seq<Tile>, R: nat, C: nat, r: nat)
    requires Tiling(tiles, R, C) && Writable(tiles) && r <= R && C > 0
    ensures var l := LinesOf(Encode(tiles, C, r));
            l.open == [] && |l.done| >= r && (|l.done| == r <==> LeadsAbove(tiles, r)) &&
            (|l.done| == r ==> l.done == Matrix(tiles, C, r))
    decreases r
  {
    hide LinesOf, IsCell, Tiling, EncodeRow, Breaks, LeadsAbove, Writable, Matrix, Lexable;
    if r > 0 {
      RowsComeBack(tiles, R, C, r - 1);
      EncodeRowFacts(tiles, R, C, r - 1);
      LeadsOneMore(tiles, R, C, r - 1);
      FeedWholeRow(Encode(tiles, C, r - 1), EncodeRow(tiles, C, r - 1));
      MatrixOneMore(tiles, C, r - 1);
    } else {
      NoRows(tiles, C);
    }
  }

  lemma {:induction false} NoRows(tiles: seq<Tile>, C: nat)
    ensures LinesOf(Encode(tiles, C, 0)) == Lines([], []) && Matrix(tiles, C, 0) == [] && LeadsAbove(tiles, 0)
  {
  }

  lemma {:induction false} MatrixOneMore(tiles: seq<Tile>, C: nat, r: nat)
    ensures Matrix(tiles, C, r + 1) == Matrix(tiles, C, r) + [EncodeRow(tiles, C, r)]
  {
  }

  /** The reader sees exactly the encoded rows if and only if every section tile
      starts its row; otherwise it sees more rows than were written. */
  lemma {:induction false} ShapeComesBack(tiles: seq<Tile>, R: nat, C: nat)
    requires Tiling(tiles, R, C) && Writable(tiles) && C > 0
    ensures |SourceRows(Write(tiles, R, C))| >= R
    ensures |SourceRows(Write(tiles, R, C))| == R <==> SectionsLead(tiles)
    ensures SectionsLead(tiles) ==> SourceRows(Write(tiles, R, C)) == Matrix(tiles, C, R)
  {
    EncodeLexable(tiles, R, C, R);
    LexRender(Encode(tiles, C, R));
    RowsComeBack(tiles, R, C, R);
    forall x | x in tiles ensures x.top < R {
    }
  }

  /** A full cell with a section cell to its right. */
  const SPLIT: seq<Tile> := [Tile(0, 0, 1, 1, Full, "a"), Tile(0, 1, 1, 2, Section, "b")]

  /** One written row, more than one row read. */
  lemma {:induction false} MidRowSectionSplits()
    ensures Tiling(SPLIT, 1, 2) && Writable(SPLIT) && |SourceRows(Write(SPLIT, 1, 2))| > 1
  {
    SplitIsATiling();
    hide SourceRows, Write, Tiling, Writable;
    ShapeComesBack(SPLIT, 1, 2);
  }

  lemma {:induction false} SplitIsATiling()
    ensures Tiling(SPLIT, 1, 2) && Writable(SPLIT) && !SectionsLead(SPLIT)
  {
    forall r: nat, c: nat | r < 1 && c < 2 ensures Held(SPLIT, r, c) {
      assert Holds(SPLIT[c], r, c);
    }
    assert PlainText("a") && PlainText("b");
    assert SPLIT[1] in SPLIT;
  }

  // ---- spans come back as they were written ------------------------------

  /** A tile as a table cell cut to the kept part. */
  function CutTile(x: Tile, K: nat, L: nat): Cell {
    Cell(x.top, x.left, Least(x.bottom, K), Least(x.right, L), Labelled(x))
  }

  /** What a tile says, with the flag of its kind. */
  function Labelled(x: Tile): Content {
    Content(if x.kind.Empty? then "" else x.text, x.kind.ColumnHeader?, x.kind.RowHeader?, x.kind.Section?)
  }

  lemma {:induction false} LabelComesBack(x: Tile)
    ensures ContentOf(Token(TagOf(x.kind), x.text)) == Labelled(x)
  {
  }

  /** The tiles anchored in the kept part, cut to it. */
  function KeptTiles(tiles: seq<Tile>, K: nat, L: nat): seq<Cell> {
    if tiles == [] then []
    else
      var rest, x := KeptTiles(tiles[..|tiles| - 1], K, L), tiles[|tiles| - 1];
      if x.top < K && x.left < L then rest + [CutTile(x, K, L)] else rest
  }

  function KeptPart(tiles: seq<Tile>, R: nat, C: nat, K: nat, L: nat): seq<seq<Token>> {
    Window(Matrix(tiles, C, R), K, L)
  }

  lemma {:induction false} KeptToken(tiles: seq<Tile>, R: nat, C: nat, K: nat, L: nat, r: nat, c: nat)
    requires r < K <= R && c < L <= C
    ensures var rows := KeptPart(tiles, R, C, K, L);
            |rows| == K && |rows[r]| == L && rows[r][c] == TokenAt(Owner(tiles, r, c), r, c)
  {
  }

  lemma {:induction false} AcrossComesBack(tiles: seq<Tile>, R: nat, C: nat, K: nat, L: nat, x: Tile)
    requires Tiling(tiles, R, C) && K <= R && L <= C && x in tiles && x.top < K && x.left < L
    ensures var rows := KeptPart(tiles, R, C, K, L);
            |rows| == K && |rows[x.top]| == L && x.left + 1 + RunAcross(rows[x.top], x.left + 1) == Least(x.right, L)
  {
    hide Tiling, KeptPart;
    AnchorOwned(tiles, R, C, x);
    KeptToken(tiles, R, C, K, L, x.top, x.left);
    var row := KeptPart(tiles, R, C, K, L)[x.top];
    var stop := Least(x.right, L);
    forall c: nat | x.left < c < stop ensures FillsAcross(row[c].tag) {
      KeptToken(tiles, R, C, K, L, x.top, c);
      OwnedOnce(tiles, R, C, x, x.top, c);
      WrittenToken(x, x.top, c);
    }
    if x.right < L {
      KeptToken(tiles, R, C, K, L, x.top, x.right);
      NextAcross(tiles, R, C, x);
      WrittenToken(Owner(tiles, x.top, x.right), x.top, x.right);
    }
    var n := RunAcross(row, x.left + 1);
    assert !(x.left + 1 + n < stop) && !(x.left + 1 + n > stop);
  }

  /** The tile right of a tile's top row starts there. */
  lemma {:induction false} NextAcross(tiles: seq<Tile>, R: nat, C: nat, x: Tile)
    requires Tiling(tiles, R, C) && x in tiles && x.right < C
    ensures x.top < R && Owner(tiles, x.top, x.right).left == x.right
  {
    AnchorOwned(tiles, R, C, x);
    var y := Owner(tiles, x.top, x.right);
    assert Held(tiles, x.top, x.right);
    OwnedOnce(tiles, R, C, x, x.top, x.right - 1);
    OwnsIfHolds(tiles, R, C, y, x.top, x.right - 1);
    assert y != x;
  }

  lemma {:induction false} DownComesBack(tiles: seq<Tile>, R: nat, C: nat, K: nat, L: nat, x: Tile)
    requires Tiling(tiles, R, C) && K <= R && L <= C && x in tiles && x.top < K && x.left < L
    ensures var rows := KeptPart(tiles, R, C, K, L);
            |rows| == K && x.top + 1 + RunDown(rows, x.top + 1, x.left) == Least(x.bottom, K)
  {
    hide Tiling, KeptPart;
    AnchorOwned(tiles, R, C, x);
    KeptToken(tiles, R, C, K, L, x.top, x.left);
    var rows := KeptPart(tiles, R, C, K, L);
    var stop := Least(x.bottom, K);
    forall r: nat | x.top < r < stop ensures FillsDownAt(rows, r, x.left) {
      KeptToken(tiles, R, C, K, L, r, x.left);
      OwnedOnce(tiles, R, C, x, r, x.left);
      WrittenToken(x, r, x.left);
    }
    if x.bottom < K {
      KeptToken(tiles, R, C, K, L, x.bottom, x.left);
      NextDown(tiles, R, C, x);
      WrittenToken(Owner(tiles, x.bottom, x.left), x.bottom, x.left);
    }
    assert !FillsDownAt(rows, stop, x.left);
    var n := RunDown(rows, x.top + 1, x.left);
    assert !(x.top + 1 + n < stop) && !(x.top + 1 + n > stop);
  }

  /** The tile below a tile's left column starts there. */
  lemma {:induction false} NextDown(tiles: seq<Tile>, R: nat, C: nat, x: Tile)
    requires Tiling(tiles, R, C) && x in tiles && x.bottom < R
    ensures x.left < C && Owner(tiles, x.bottom, x.left).top == x.bottom
  {
    AnchorOwned(tiles, R, C, x);
    var y := Owner(tiles, x.bottom, x.left);
    assert Held(tiles, x.bottom, x.left);
    OwnedOnce(tiles, R, C, x, x.bottom - 1, x.left);
    OwnsIfHolds(tiles, R, C, y, x.bottom - 1, x.left);
    assert y != x;
  }

  lemma {:induction false} TileComesBack(tiles: seq<Tile>, R: nat, C: nat, K: nat, L: nat, x: Tile)
    requires Tiling(tiles, R, C) && K <= R && L <= C && x in tiles && x.top < K && x.left < L
    ensures var rows := KeptPart(tiles, R, C, K, L);
            AnchorAt(rows, x.top, x.left) && CellAt(rows, x.top, x.left) == CutTile(x, K, L)
  {
    hide Tiling, KeptPart, RunAcross, RunDown, ContentOf, TagOf, Labelled;
    LabelComesBack(x);
    AnchorOwned(tiles, R, C, x);
    KeptToken(tiles, R, C, K, L, x.top, x.left);
    WrittenToken(x, x.top, x.left);
    AcrossComesBack(tiles, R, C, K, L, x);
    DownComesBack(tiles, R, C, K, L, x);
  }

  /** Two lists in strict reading order with the same members are the same. */
  lemma {:induction false} SortedAlike(a: seq<Cell>, b: seq<Cell>)
    requires RowMajor(a) && RowMajor(b) && forall x :: x in a <==> x in b
    ensures a == b
    decreases |a|
  {
    if a == [] {
      FirstIsMember(b);
    } else {
      var n, m := |a| - 1, |b| - 1;
      assert a[n] in b;
      assert b[m] in a;
      SameLast(a, b);
      forall x ensures x in a[..n] <==> x in b[..m] {
        LastApart(a, x);
        LastApart(b, x);
      }
      SortedAlike(a[..n], b[..m]);
      assert a == a[..n] + [a[n]] && b == b[..m] + [b[m]];
    }
  }

  lemma {:induction false} FirstIsMember(a: seq<Cell>)
    ensures a == [] || a[0] in a
  {
  }

  lemma {:induction false} SameLast(a: seq<Cell>, b: seq<Cell>)
    requires RowMajor(a) && RowMajor(b) && a != [] && b != [] && a[|a| - 1] in b && b[|b| - 1] in a
    ensures a[|a| - 1] == b[|b| - 1]
  {
    var j :| 0 <= j < |b| && b[j] == a[|a| - 1];
    var i :| 0 <= i < |a| && a[i] == b[|b| - 1];
    assert j < |b| - 1 ==> AnchoredBefore(b[j], b[|b| - 1]);
    assert i < |a| - 1 ==> AnchoredBefore(a[i], a[|a| - 1]);
  }

  lemma {:induction false} LastApart(a: seq<Cell>, x: Cell)
    requires RowMajor(a) && a != []
    ensures x in a[..|a| - 1] <==> x in a && x != a[|a| - 1]
  {
    if x in a[..|a| - 1] {
      var i :| 0 <= i < |a| - 1 && a[i] == x;
      assert AnchoredBefore(a[i], a[|a| - 1]);
    }
  }

  lemma {:induction false} KeptTilesAre(tiles: seq<Tile>, K: nat, L: nat)
    ensures forall y :: y in KeptTiles(tiles, K, L) <==>
            exists x :: x in tiles && x.top < K && x.left < L && y == CutTile(x, K, L)
    decreases |tiles|
  {
    if tiles != [] {
      var n := |tiles| - 1;
      KeptTilesAre(tiles[..n], K, L);
      assert forall x :: x in tiles <==> x in tiles[..n] || x == tiles[n];
    }
  }

  lemma {:induction false} KeptTilesSorted(tiles: seq<Tile>, K: nat, L: nat)
    requires forall i :: 0 <= i < |tiles| ==> tiles[i].top < tiles[i].bottom && tiles[i].left < tiles[i].right
    requires forall i, j :: 0 <= i < j < |tiles| ==> Earlier(tiles[i].top, tiles[i].left, tiles[j].top, tiles[j].left)
    ensures RowMajor(KeptTiles(tiles, K, L))
    decreases |tiles|
  {
    if tiles != [] {
      var n := |tiles| - 1;
      KeptTilesSorted(tiles[..n], K, L);
      KeptTilesAre(tiles[..n], K, L);
      var rest := KeptTiles(tiles[..n], K, L);
      forall k | 0 <= k < |rest| ensures AnchoredBefore(rest[k], CutTile(tiles[n], K, L)) {
        assert rest[k] in rest;
        var x :| x in tiles[..n] && rest[k] == CutTile(x, K, L);
        var i :| 0 <= i < n && tiles[i] == x;
        assert Earlier(tiles[i].top, tiles[i].left, tiles[n].top, tiles[n].left);
      }
    }
  }

  lemma {:induction false} AnchorsAreTiles(tiles: seq<Tile>, R: nat, C: nat, K: nat, L: nat, r: nat, c: nat)
    requires Tiling(tiles, R, C) && K <= R && L <= C && AnchorAt(KeptPart(tiles, R, C, K, L), r, c)
    ensures r < K && c < L && var x := Owner(tiles, r, c); x in tiles && x.top == r && x.left == c
  {
    hide Tiling, IsAnchor;
    var rows := KeptPart(tiles, R, C, K, L);
    assert |rows[r]| == L;
    KeptToken(tiles, R, C, K, L, r, c);
    WrittenToken(Owner(tiles, r, c), r, c);
    TilingHolds(tiles, R, C, r, c);
  }

  lemma {:induction false} TilingHolds(tiles: seq<Tile>, R: nat, C: nat, r: nat, c: nat)
    requires Tiling(tiles, R, C) && r < R && c < C
    ensures Held(tiles, r, c)
  {
  }

  lemma {:induction false} CellsComeBack(tiles: seq<Tile>, R: nat, C: nat, K: nat, L: nat)
    requires Tiling(tiles, R, C) && K <= R && L <= C
    ensures CellsOf(KeptPart(tiles, R, C, K, L)) == KeptTiles(tiles, K, L)
  {
    var rows := KeptPart(tiles, R, C, K, L);
    var cells, kept := CellsOf(rows), KeptTiles(tiles, K, L);
    CellsAreSound(rows);
    KeptTilesAre(tiles, K, L);
    KeptTilesSorted(tiles, K, L);
    hide Tiling, KeptPart, CellsOf, KeptTiles, CutTile, CellAt, RowMajor, IsAnchor;
    forall y ensures y in cells <==> y in kept {
      if y in cells {
        AnchorsAreTiles(tiles, R, C, K, L, y.top, y.left);
        TileComesBack(tiles, R, C, K, L, Owner(tiles, y.top, y.left));
      }
      if y in kept {
        var x :| x in tiles && x.top < K && x.left < L && y == CutTile(x, K, L);
        TileComesBack(tiles, R, C, K, L, x);
        assert Earlier(x.top, x.left, |rows|, 0);
      }
    }
    SortedAlike(cells, kept);
  }

  lemma {:induction false} GridComesBack(tiles: seq<Tile>, R: nat, C: nat, K: nat, L: nat, r: nat, c: nat)
    requires Tiling(tiles, R, C) && r < K <= R && c < L <= C
    ensures LastCover(KeptTiles(tiles, K, L), r, c) == CutTile(Owner(tiles, r, c), K, L)
  {
    var x, cells := Owner(tiles, r, c), KeptTiles(tiles, K, L);
    assert Held(tiles, r, c);
    KeptTilesAre(tiles, K, L);
    KeptTilesSorted(tiles, K, L);
    assert CutTile(x, K, L) in cells;
    var k :| 0 <= k < |cells| && cells[k] == CutTile(x, K, L);
    forall j | k < j < |cells| ensures !Covers(cells[j], r, c) {
      assert AnchoredBefore(cells[k], cells[j]) && cells[j] in cells;
      var y :| y in tiles && y.top < K && y.left < L && cells[j] == CutTile(y, K, L);
      if Holds(y, r, c) {
        OwnedOnce(tiles, R, C, y, r, c);
      }
    }
    LastCoverIs(cells, r, c, k);
  }

  /** Reading inverts writing, for every tiling of every size whose section tiles
      start their rows: the reader finds the tiles in order, cut to the caps, and
      labels every kept position with the tile that owns it. */
  lemma {:induction false} ReadingInvertsWriting(tiles: seq<Tile>, R: nat, C: nat)
    requires Tiling(tiles, R, C) && Writable(tiles) && SectionsLead(tiles) && R > 0 && C > 0
    ensures var body, shape := Write(tiles, R, C), KeptShape(R, C);
            var cells := CellsOf(KeptRows(body));
            && |SourceRows(body)| == R && Width(SourceRows(body)) == C
            && |KeptRows(body)| == shape.0 && Width(KeptRows(body)) == shape.1
            && cells == KeptTiles(tiles, shape.0, shape.1)
            && forall r: nat, c: nat :: r < shape.0 && c < shape.1 ==>
                 LastCover(cells, r, c) == CutTile(Owner(tiles, r, c), shape.0, shape.1)
  {
    hide Write, CellsOf, KeptRows, KeptTiles, LastCover, CutTile, Owner, Width, SourceRows, Tiling, Writable,
         SectionsLead, KeptShape;
    var shape := KeptShape(R, C);
    KeptComesBack(tiles, R, C);
    CellsComeBack(tiles, R, C, shape.0, shape.1);
    forall r: nat, c: nat | r < shape.0 && c < shape.1
      ensures LastCover(KeptTiles(tiles, shape.0, shape.1), r, c) == CutTile(Owner(tiles, r, c), shape.0, shape.1)
    {
      GridComesBack(tiles, R, C, shape.0, shape.1, r, c);
    }
  }

  /** The rows the reader keeps are the leading part of the encoded rows. */
  lemma {:induction false} KeptComesBack(tiles: seq<Tile>, R: nat, C: nat)
    requires Tiling(tiles, R, C) && Writable(tiles) && SectionsLead(tiles) && R > 0 && C > 0
    ensures var body, shape := Write(tiles, R, C), KeptShape(R, C);
            && |SourceRows(body)| == R && Width(SourceRows(body)) == C
            && KeptRows(body) == KeptPart(tiles, R, C, shape.0, shape.1)
            && |KeptRows(body)| == shape.0 && Width(KeptRows(body)) == shape.1
  {
    hide Write, Width, SourceRows, Tiling, Writable, SectionsLead, KeptShape, EncodeRow;
    ShapeComesBack(tiles, R, C);
    var shape := KeptShape(R, C);
    MatrixWidth(Matrix(tiles, C, R), C);
    MatrixWidth(KeptPart(tiles, R, C, shape.0, shape.1), shape.1);
  }

  lemma {:induction false} MatrixWidth(rows: seq<seq<Token>>, w: nat)
    requires rows != [] && forall r :: 0 <= r < |rows| ==> |rows[r]| == w
    ensures Width(rows) == w
  {
    assert |rows[0]| == w;
  }

  lemma {:induction false} NothingDropped(tiles: seq<Tile>, R: nat, C: nat)
    requires forall i :: 0 <= i < |tiles| ==> tiles[i].top < R && tiles[i].left < C
    ensures |KeptTiles(tiles, R, C)| == |tiles|
    ensures forall i :: 0 <= i < |tiles| ==> KeptTiles(tiles, R, C)[i] == CutTile(tiles[i], R, C)
    decreases |tiles|
  {
    hide CutTile;
    if tiles != [] {
      NothingDropped(tiles[..|tiles| - 1], R, C);
    }
  }

  lemma {:induction false} NothingCut(x: Tile, R: nat, C: nat)
    requires x.bottom <= R && x.right <= C
    ensures CutTile(x, R, C) == Cell(x.top, x.left, x.bottom, x.right, Labelled(x))
  {
  }

  /** Inside the caps the reader finds exactly the tiles, in order, and every grid
      position shows its own tile. */
  lemma {:induction false} SmallTablesComeBackWhole(tiles: seq<Tile>, R: nat, C: nat)
    requires Tiling(tiles, R, C) && Writable(tiles) && SectionsLead(tiles)
    requires 0 < R <= MAX_ROWS && 0 < C <= MAX_COLS && R * C <= MAX_CELLS
    ensures var cells := CellsOf(KeptRows(Write(tiles, R, C)));
            && |cells| == |tiles|
            && (forall i :: 0 <= i < |tiles| ==>
                  var x := tiles[i];
                  cells[i] == Cell(x.top, x.left, x.bottom, x.right, Labelled(x)))
            && forall r: nat, c: nat, i :: r < R && c < C && 0 <= i < |tiles| && Holds(tiles[i], r, c) ==>
                 LastCover(cells, r, c) == cells[i]
  {
    hide CellsOf, KeptRows, Write, KeptTiles, LastCover, Labelled, CutTile;
    ReadingInvertsWriting(tiles, R, C);
    FitsWhole(R, C);
    NothingDropped(tiles, R, C);
    var cells := CellsOf(KeptRows(Write(tiles, R, C)));
    forall i | 0 <= i < |tiles|
      ensures var x := tiles[i];
              cells[i] == Cell(x.top, x.left, x.bottom, x.right, Labelled(x))
    {
      NothingCut(tiles[i], R, C);
    }
    forall r: nat, c: nat, i | r < R && c < C && 0 <= i < |tiles| && Holds(tiles[i], r, c)
      ensures LastCover(cells, r, c) == cells[i]
    {
      OwnedOnce(tiles, R, C, tiles[i], r, c);
    }
  }

  lemma {:induction false} ProductGrows(a: nat, b: nat, c: nat)
    ensures a <= b ==> a * c <= b * c
  {
  }

  lemma {:induction false} FitsWhole(R: nat, C: nat)
    requires 0 < R <= MAX_ROWS && 0 < C <= MAX_COLS && R * C <= MAX_CELLS
    ensures KeptShape(R, C) == (R, C)
  {
    var kept := KeptShape(R, C);
    ProductGrows(kept.0 + 1, R, C);
  }
}
