/** Emphasis resolution: the delimiter pass of `render_paragraph`
    (src/mapping/markdown_inline.cpp) over the pieces its scanner produced. */
module Emphasis {
  import opened Common

  datatype Kind = Em | Strong

  /** A piece of a paragraph. `opens` and `closes` are the tags inserted so far
      on the content side of a delimiter run, in output order. */
  datatype Piece =
    | Text(html: string)
    | Run(ch: char, count: nat, orig: nat, canOpen: bool, canClose: bool, opens: seq<Kind>, closes: seq<Kind>)

  datatype Key = Key(ch: char, canOpen: bool, residue: nat)

  datatype Pass = Pass(pieces: seq<Piece>, stack: seq<nat>, bottom: map<Key, nat>)

  function KeyOf(closer: Piece): Key
    requires closer.Run?
  {
    Key(closer.ch, closer.canOpen, closer.orig % 3)
  }

  /** Whether `opener` may open for a closer with this key. Runs that can both
      open and close obey the rule of three. */
  predicate Compatible(opener: Piece, key: Key) {
    && opener.Run? && opener.ch == key.ch && opener.canOpen && opener.count > 0
    && !((opener.canClose || key.canOpen) && (opener.orig + key.residue) % 3 == 0
         && !(opener.orig % 3 == 0 && key.residue == 0))
  }

  /** Stack entries are runs that still hold delimiters, in order, before `c`. */
  ghost predicate StackOk(pieces: seq<Piece>, stack: seq<nat>, c: nat) {
    && (forall j :: 0 <= j < |stack| ==>
          stack[j] < c && stack[j] < |pieces| && pieces[stack[j]].Run? && pieces[stack[j]].count > 0)
    && (forall i, j :: 0 <= i < j < |stack| ==> stack[i] < stack[j])
  }

  /** The nearest compatible opener among stack positions floor .. n - 1. */
  function FindOpener(pieces: seq<Piece>, stack: seq<nat>, key: Key, n: nat, floor: nat): (r: Option<nat>)
    requires n <= |stack| && forall j :: 0 <= j < |stack| ==> stack[j] < |pieces|
    ensures r.Some? ==> floor <= r.value < n && Compatible(pieces[stack[r.value]], key)
    ensures forall s :: floor <= s < n && (r.Some? ==> r.value < s) ==> !Compatible(pieces[stack[s]], key)
  {
    if n <= floor then None
    else if Compatible(pieces[stack[n - 1]], key) then Some(n - 1)
    else FindOpener(pieces, stack, key, n - 1, floor)
  }

  function Used(opener: Piece, closer: Piece): nat
    requires opener.Run? && closer.Run?
  {
    if opener.count >= 2 && closer.count >= 2 then 2 else 1
  }

  function KindOf(used: nat): Kind {
    if used == 2 then Strong else Em
  }

  /** Pairs the run at stack position `found` with the closer at `c`. */
  function Pair(pieces: seq<Piece>, o: nat, c: nat): seq<Piece>
    requires o < c < |pieces| && pieces[o].Run? && pieces[c].Run? && pieces[o].count > 0 && pieces[c].count > 0
  {
    var opener, closer := pieces[o], pieces[c];
    var used := Used(opener, closer);
    pieces[o := opener.(opens := [KindOf(used)] + opener.opens, count := opener.count - used)]
          [c := closer.(closes := closer.closes + [KindOf(used)], count := closer.count - used)]
  }

  /** The delimiters above the opener become literal text, and the opener too
      once it is used up. */
  function Cut(pieces: seq<Piece>, stack: seq<nat>, found: nat): seq<nat>
    requires found < |stack| && stack[found] < |pieces| && pieces[stack[found]].Run?
  {
    if pieces[stack[found]].count == 0 then stack[..found] else stack[..found + 1]
  }

  ghost predicate Ready(pieces: seq<Piece>, stack: seq<nat>, c: nat) {
    c < |pieces| && pieces[c].Run? && StackOk(pieces, stack, c)
  }

  /** The closer at `c` takes openers until it is used up or finds none. */
  function Close(pieces: seq<Piece>, stack: seq<nat>, c: nat, floor: nat): (r: (seq<Piece>, seq<nat>))
    requires Ready(pieces, stack, c)
    ensures |r.0| == |pieces| && Ready(r.0, r.1, c)
    ensures forall i :: c < i < |pieces| ==> r.0[i] == pieces[i]
    decreases pieces[c].count
  {
    if pieces[c].count == 0 then (pieces, stack)
    else
      match FindOpener(pieces, stack, KeyOf(pieces[c]), |stack|, floor)
      case None => (pieces, stack)
      case Some(found) =>
        var after := Pair(pieces, stack[found], c);
        Close(after, Cut(after, stack, found), c, floor)
  }

  function FloorOf(bottom: map<Key, nat>, key: Key): nat {
    if key in bottom then bottom[key] else 0
  }

  /** Whether the closer finds any opener at all. */
  predicate Matches(pieces: seq<Piece>, stack: seq<nat>, c: nat, floor: nat)
    requires Ready(pieces, stack, c)
  {
    pieces[c].count > 0 && FindOpener(pieces, stack, KeyOf(pieces[c]), |stack|, floor).Some?
  }

  function Arrive(pieces: seq<Piece>, stack: seq<nat>, c: nat): seq<nat>
    requires c < |pieces| && pieces[c].Run?
  {
    if pieces[c].count > 0 && pieces[c].canOpen then stack + [c] else stack
  }

  /** One turn of the pass: the piece at `c` closes, then may stay as opener. */
  function Turn(p: Pass, c: nat): (q: Pass)
    requires c < |p.pieces| && (p.pieces[c].Run? ==> Ready(p.pieces, p.stack, c))
    ensures |q.pieces| == |p.pieces|
    ensures forall i :: c < i < |p.pieces| ==> q.pieces[i] == p.pieces[i]
  {
    var x := p.pieces[c];
    if x.Text? then p
    else if !x.canClose then p.(stack := Arrive(p.pieces, p.stack, c))
    else
      var key := KeyOf(x);
      var floor := FloorOf(p.bottom, key);
      var (pieces, stack) := Close(p.pieces, p.stack, c, floor);
      var bottom := if Matches(p.pieces, p.stack, c, floor) then p.bottom else p.bottom[key := |stack|];
      Pass(pieces, Arrive(pieces, stack, c), bottom)
  }

  lemma {:induction false} TurnKeepsStack(p: Pass, c: nat)
    requires StackOk(p.pieces, p.stack, c) && c < |p.pieces|
    ensures StackOk(Turn(p, c).pieces, Turn(p, c).stack, c + 1)
  {
    if p.pieces[c].Run? && p.pieces[c].canClose {
      hide FindOpener, StackOk;
      var (pieces, stack) := Close(p.pieces, p.stack, c, FloorOf(p.bottom, KeyOf(p.pieces[c])));
      ArriveKeepsStack(pieces, stack, c);
    } else if p.pieces[c].Run? {
      ArriveKeepsStack(p.pieces, p.stack, c);
    }
  }

  lemma {:induction false} ArriveKeepsStack(pieces: seq<Piece>, stack: seq<nat>, c: nat)
    requires Ready(pieces, stack, c)
    ensures StackOk(pieces, Arrive(pieces, stack, c), c + 1)
  {
  }

  function From(p: Pass, c: nat): (q: Pass)
    requires c <= |p.pieces| && StackOk(p.pieces, p.stack, c)
    ensures |q.pieces| == |p.pieces|
    decreases |p.pieces| - c
  {
    if c == |p.pieces| then p
    else
      TurnKeepsStack(p, c);
      From(Turn(p, c), c + 1)
  }

  /** The whole pass. */
  function Resolve(pieces: seq<Piece>): (r: seq<Piece>)
    ensures |r| == |pieces|
  {
    From(Pass(pieces, [], map[]), 0).pieces
  }

  // ---- the word of inserted tags -----------------------------------------

  datatype Tag = Open(kind: Kind) | Shut(kind: Kind)

  function Opens(kinds: seq<Kind>): seq<Tag> {
    seq(|kinds|, i requires 0 <= i < |kinds| => Open(kinds[i]))
  }

  function Shuts(kinds: seq<Kind>): seq<Tag> {
    seq(|kinds|, i requires 0 <= i < |kinds| => Shut(kinds[i]))
  }

  function TagsOf(x: Piece): seq<Tag> {
    if x.Text? then [] else Shuts(x.closes) + Opens(x.opens)
  }

  /** The tags of pieces i .. j - 1 in output order. */
  function Word(pieces: seq<Piece>, i: nat, j: nat): seq<Tag>
    requires j <= |pieces|
  {
    if j <= i then [] else Word(pieces, i, j - 1) + TagsOf(pieces[j - 1])
  }

  /** Reading a word of tags against a stack of open elements; None when a
      closing tag does not name the innermost open element. */
  function Read(w: seq<Tag>, open: seq<Kind>): Option<seq<Kind>> {
    if w == [] then Some(open)
    else if w[0].Open? then Read(w[1..], open + [w[0].kind])
    else if |open| > 0 && open[|open| - 1] == w[0].kind then Read(w[1..], open[..|open| - 1])
    else None
  }

  /** Every opening tag is closed by a tag of its kind, in proper nesting. */
  predicate Balanced(w: seq<Tag>) {
    Read(w, []) == Some([])
  }

  lemma {:induction false} ReadConcat(a: seq<Tag>, b: seq<Tag>, open: seq<Kind>)
    ensures Read(a + b, open) == match Read(a, open) case None => None case Some(mid) => Read(b, mid)
    decreases |a|
  {
    if a == [] {
      assert a + b == b;
    } else {
      assert (a + b)[1..] == a[1..] + b;
      if a[0].Open? {
        ReadConcat(a[1..], b, open + [a[0].kind]);
      } else if |open| > 0 && open[|open| - 1] == a[0].kind {
        ReadConcat(a[1..], b, open[..|open| - 1]);
      }
    }
  }

  lemma {:induction false} ReadFrame(w: seq<Tag>, base: seq<Kind>, open: seq<Kind>)
    requires Read(w, open).Some?
    ensures Read(w, base + open) == Some(base + Read(w, open).value)
    decreases |w|
  {
    if w != [] {
      if w[0].Open? {
        ReadFrame(w[1..], base, open + [w[0].kind]);
        assert base + open + [w[0].kind] == base + (open + [w[0].kind]);
      } else {
        ReadFrame(w[1..], base, open[..|open| - 1]);
        assert (base + open)[..|base + open| - 1] == base + open[..|open| - 1];
      }
    }
  }

  lemma {:induction false} BalancedAnywhere(w: seq<Tag>, open: seq<Kind>)
    requires Balanced(w)
    ensures Read(w, open) == Some(open)
  {
    ReadFrame(w, open, []);
    assert open + [] == open;
  }

  /** A balanced word stays balanced when a balanced end of it is wrapped in a
      pair of tags. */
  lemma {:induction false} WrapEnd(before: seq<Tag>, end: seq<Tag>, k: Kind)
    requires Balanced(before + end) && Balanced(end)
    ensures Balanced(before + ([Open(k)] + end + [Shut(k)]))
  {
    ReadConcat(before, end, []);
    BalancedAnywhere(end, Read(before, []).value);
    var wrapped := [Open(k)] + end + [Shut(k)];
    ReadConcat(before, wrapped, []);
    ReadConcat([Open(k)] + end, [Shut(k)], []);
    ReadConcat([Open(k)], end, []);
    BalancedAnywhere(end, [k]);
    assert Read([Open(k)], []) == Some([k]) by {
      assert [] + [k] == [k];
      assert [Open(k)][1..] == [];
    }
    assert Read([Shut(k)], [k]) == Some([]) by {
      assert [Shut(k)][1..] == [];
    }
  }

  // ---- the pass keeps the word nested ------------------------------------

  lemma {:induction false} WordSplit(pieces: seq<Piece>, i: nat, m: nat, j: nat)
    requires i <= m <= j <= |pieces|
    ensures Word(pieces, i, j) == Word(pieces, i, m) + Word(pieces, m, j)
    decreases j
  {
    if m < j {
      WordSplit(pieces, i, m, j - 1);
    }
  }

  lemma {:induction false} WordAgree(a: seq<Piece>, b: seq<Piece>, i: nat, j: nat)
    requires j <= |a| && j <= |b| && forall x :: i <= x < j ==> a[x] == b[x]
    ensures Word(a, i, j) == Word(b, i, j)
    decreases j
  {
    if i < j {
      WordAgree(a, b, i, j - 1);
    }
  }

  /** The word from the opening tags of piece `o` to the end. */
  function EndWord(pieces: seq<Piece>, o: nat, n: nat): seq<Tag>
    requires o < n <= |pieces| && pieces[o].Run?
  {
    Opens(pieces[o].opens) + Word(pieces, o + 1, n)
  }

  /** The word from piece `i` up to the closing tags of piece `o`. */
  function FrontWord(pieces: seq<Piece>, i: nat, o: nat): seq<Tag>
    requires i <= o < |pieces| && pieces[o].Run?
  {
    Word(pieces, i, o) + Shuts(pieces[o].closes)
  }

  lemma {:induction false} WordOne(pieces: seq<Piece>, o: nat)
    requires o < |pieces|
    ensures Word(pieces, o, o + 1) == TagsOf(pieces[o])
  {
    assert Word(pieces, o, o) == [];
  }

  lemma {:induction false} FrontAndEnd(pieces: seq<Piece>, i: nat, o: nat, n: nat)
    requires i <= o < n <= |pieces| && pieces[o].Run?
    ensures Word(pieces, i, n) == FrontWord(pieces, i, o) + EndWord(pieces, o, n)
  {
    hide Word, Shuts, Opens;
    WordSplit(pieces, i, o, n);
    WordSplit(pieces, o, o + 1, n);
    WordOne(pieces, o);
  }

  /** An end that starts at an earlier opener contains the later ones. */
  lemma {:induction false} OuterEnd(pieces: seq<Piece>, i: nat, o: nat, n: nat)
    requires i < o < n <= |pieces| && pieces[i].Run? && pieces[o].Run?
    ensures EndWord(pieces, i, n) == Opens(pieces[i].opens) + FrontWord(pieces, i + 1, o) + EndWord(pieces, o, n)
  {
    hide Word, Shuts, Opens;
    FrontAndEnd(pieces, i + 1, o, n);
  }

  /** The tags of the first `n` pieces are balanced, and so is every end of them
      that starts at an opener still on the stack; later pieces carry none. */
  ghost predicate WellNested(pieces: seq<Piece>, stack: seq<nat>, n: nat) {
    && n <= |pieces| && Balanced(Word(pieces, 0, n))
    && (forall j :: 0 <= j < |stack| ==>
          stack[j] < n && pieces[stack[j]].Run? && Balanced(EndWord(pieces, stack[j], n)))
  }

  ghost predicate Bare(x: Piece) {
    x.Run? ==> x.opens == [] && x.closes == []
  }

  lemma {:induction false} PairWords(pieces: seq<Piece>, o: nat, c: nat)
    requires o < c < |pieces| && pieces[o].Run? && pieces[c].Run? && pieces[o].count > 0 && pieces[c].count > 0
    requires pieces[c].opens == []
    ensures var after, k := Pair(pieces, o, c), KindOf(Used(pieces[o], pieces[c]));
            && EndWord(after, o, c + 1) == [Open(k)] + EndWord(pieces, o, c + 1) + [Shut(k)]
            && forall i :: 0 <= i <= o ==> FrontWord(after, i, o) == FrontWord(pieces, i, o)
  {
    var after, k := Pair(pieces, o, c), KindOf(Used(pieces[o], pieces[c]));
    PairTags(pieces, o, c);
    forall i | 0 <= i <= o ensures FrontWord(after, i, o) == FrontWord(pieces, i, o) {
      WordAgree(pieces, after, i, o);
    }
    WordAgree(pieces, after, o + 1, c);
    hide Opens, Shuts, Pair;
    var outer, inner, last := Opens(pieces[o].opens), Word(pieces, o + 1, c), Shuts(pieces[c].closes);
    assert TagsOf(pieces[c]) == last && TagsOf(after[c]) == last + [Shut(k)];
    assert [Open(k)] + outer + (inner + (last + [Shut(k)])) == [Open(k)] + (outer + (inner + last)) + [Shut(k)];
  }

  /** The tags a pairing adds: one innermost-first at the opener, one at the closer. */
  lemma {:induction false} PairTags(pieces: seq<Piece>, o: nat, c: nat)
    requires o < c < |pieces| && pieces[o].Run? && pieces[c].Run? && pieces[o].count > 0 && pieces[c].count > 0
    requires pieces[c].opens == []
    ensures var after, k := Pair(pieces, o, c), KindOf(Used(pieces[o], pieces[c]));
            && after[o].Run? && after[c].Run? && Opens(after[o].opens) == [Open(k)] + Opens(pieces[o].opens)
            && Shuts(after[c].closes) == Shuts(pieces[c].closes) + [Shut(k)]
            && Opens(after[c].opens) == [] && Opens(pieces[c].opens) == []
  {
  }

  /** Pairing an opener on the stack with the closer keeps the word balanced, and
      every end of it that starts at that opener or an earlier stack entry. */
  lemma {:induction false} PairKeepsNesting(pieces: seq<Piece>, stack: seq<nat>, c: nat, found: nat)
    requires Ready(pieces, stack, c) && found < |stack| && pieces[c].count > 0 && pieces[c].opens == []
    requires WellNested(pieces, stack, c + 1)
    ensures WellNested(Pair(pieces, stack[found], c), stack[..found + 1], c + 1)
  {
    hide Word, EndWord, FrontWord, Balanced, Opens, Shuts;
    var o, n := stack[found], c + 1;
    var after, k := Pair(pieces, o, c), KindOf(Used(pieces[o], pieces[c]));
    PairWords(pieces, o, c);
    FrontAndEnd(pieces, 0, o, n);
    FrontAndEnd(after, 0, o, n);
    WrapEnd(FrontWord(pieces, 0, o), EndWord(pieces, o, n), k);
    forall j | 0 <= j < found + 1 ensures Balanced(EndWord(after, stack[j], n)) {
      PairKeepsEnd(pieces, stack, c, found, j);
    }
  }

  lemma {:induction false} PairKeepsEnd(pieces: seq<Piece>, stack: seq<nat>, c: nat, found: nat, j: nat)
    requires Ready(pieces, stack, c) && j <= found < |stack| && pieces[c].count > 0 && pieces[c].opens == []
    requires WellNested(pieces, stack, c + 1)
    ensures Pair(pieces, stack[found], c)[stack[j]].Run?
    ensures Balanced(EndWord(Pair(pieces, stack[found], c), stack[j], c + 1))
  {
    hide Word, EndWord, FrontWord, Balanced, Opens, Shuts;
    var i, o, n := stack[j], stack[found], c + 1;
    var after, k, end := Pair(pieces, o, c), KindOf(Used(pieces[o], pieces[c])), EndWord(pieces, o, n);
    PairWords(pieces, o, c);
    if j == found {
      assert [] + end == end && [] + ([Open(k)] + end + [Shut(k)]) == [Open(k)] + end + [Shut(k)];
      WrapEnd([], end, k);
    } else {
      OuterEnd(pieces, i, o, n);
      OuterEnd(after, i, o, n);
      WrapEnd(Opens(pieces[i].opens) + FrontWord(pieces, i + 1, o), end, k);
    }
  }

  lemma {:induction false} CloseKeepsNesting(pieces: seq<Piece>, stack: seq<nat>, c: nat, floor: nat)
    requires Ready(pieces, stack, c) && pieces[c].opens == [] && WellNested(pieces, stack, c + 1)
    ensures var r := Close(pieces, stack, c, floor);
            r.0[c].opens == [] && WellNested(r.0, r.1, c + 1)
    decreases pieces[c].count
  {
    hide Balanced, EndWord, Word;
    if pieces[c].count > 0 {
      match FindOpener(pieces, stack, KeyOf(pieces[c]), |stack|, floor)
      case None =>
      case Some(found) =>
        PairKeepsNesting(pieces, stack, c, found);
        var after := Pair(pieces, stack[found], c);
        var rest := Cut(after, stack, found);
        assert WellNested(after, rest, c + 1);
        CloseKeepsNesting(after, rest, c, floor);
    }
  }

  /** A bare piece adds no tags. */
  lemma {:induction false} BareExtends(pieces: seq<Piece>, stack: seq<nat>, n: nat)
    requires WellNested(pieces, stack, n) && n < |pieces| && Bare(pieces[n])
    ensures WellNested(pieces, stack, n + 1)
  {
    assert TagsOf(pieces[n]) == [];
    forall j | 0 <= j < |stack| ensures Balanced(EndWord(pieces, stack[j], n + 1)) {
      assert EndWord(pieces, stack[j], n + 1) == EndWord(pieces, stack[j], n);
    }
    assert Word(pieces, 0, n + 1) == Word(pieces, 0, n);
  }

  lemma {:induction false} ArriveKeepsNesting(pieces: seq<Piece>, stack: seq<nat>, c: nat)
    requires WellNested(pieces, stack, c + 1) && pieces[c].Run? && pieces[c].opens == []
    ensures WellNested(pieces, Arrive(pieces, stack, c), c + 1)
  {
    assert EndWord(pieces, c, c + 1) == [];
  }

  lemma {:induction false} TurnKeepsNesting(p: Pass, c: nat)
    requires StackOk(p.pieces, p.stack, c) && c < |p.pieces|
    requires WellNested(p.pieces, p.stack, c) && Bare(p.pieces[c])
    ensures WellNested(Turn(p, c).pieces, Turn(p, c).stack, c + 1)
  {
    hide FindOpener, WellNested, StackOk;
    BareExtends(p.pieces, p.stack, c);
    if p.pieces[c].Run? {
      if p.pieces[c].canClose {
        var floor := FloorOf(p.bottom, KeyOf(p.pieces[c]));
        CloseKeepsNesting(p.pieces, p.stack, c, floor);
        var (pieces, stack) := Close(p.pieces, p.stack, c, floor);
        ArriveKeepsNesting(pieces, stack, c);
      } else {
        ArriveKeepsNesting(p.pieces, p.stack, c);
      }
    }
  }

  lemma {:induction false} FromKeepsNesting(p: Pass, c: nat)
    requires c <= |p.pieces| && StackOk(p.pieces, p.stack, c) && WellNested(p.pieces, p.stack, c)
    requires forall i :: c <= i < |p.pieces| ==> Bare(p.pieces[i])
    ensures Balanced(Word(From(p, c).pieces, 0, |p.pieces|))
    decreases |p.pieces| - c
  {
    if c < |p.pieces| {
      TurnKeepsStack(p, c);
      TurnKeepsNesting(p, c);
      FromKeepsNesting(Turn(p, c), c + 1);
    }
  }

  // ---- rendering ---------------------------------------------------------

  datatype Token = Html(html: string) | Literal(ch: char, count: nat) | TagToken(tag: Tag)

  function AsTokens(tags: seq<Tag>): seq<Token> {
    seq(|tags|, i requires 0 <= i < |tags| => TagToken(tags[i]))
  }

  /** A piece in the output: closing tags, the remaining delimiters, opening tags. */
  function TokensOf(x: Piece): seq<Token> {
    if x.Text? then [Html(x.html)]
    else AsTokens(Shuts(x.closes)) + [Literal(x.ch, x.count)] + AsTokens(Opens(x.opens))
  }

  function Render(pieces: seq<Piece>): seq<Token> {
    if pieces == [] then [] else Render(pieces[..|pieces| - 1]) + TokensOf(pieces[|pieces| - 1])
  }

  /** The inserted tags of an output, in order. */
  function TagWord(out: seq<Token>): seq<Tag> {
    if out == [] then []
    else TagWord(out[..|out| - 1]) + if out[|out| - 1].TagToken? then [out[|out| - 1].tag] else []
  }

  lemma {:induction false} TagWordConcat(a: seq<Token>, b: seq<Token>)
    ensures TagWord(a + b) == TagWord(a) + TagWord(b)
    decreases |b|
  {
    if b == [] {
      assert a + b == a;
    } else {
      TagWordConcat(a, b[..|b| - 1]);
      assert (a + b)[..|a + b| - 1] == a + b[..|b| - 1];
    }
  }

  lemma {:induction false} TagWordOfTags(tags: seq<Tag>)
    ensures TagWord(AsTokens(tags)) == tags
    decreases |tags|
  {
    if tags != [] {
      TagWordOfTags(tags[..|tags| - 1]);
      assert AsTokens(tags)[..|tags| - 1] == AsTokens(tags[..|tags| - 1]);
    }
  }

  lemma {:induction false} TagWordOne(x: Token)
    ensures TagWord([x]) == if x.TagToken? then [x.tag] else []
  {
    assert [x][..0] == [];
  }

  lemma {:induction false} TagWordOfPiece(x: Piece)
    ensures TagWord(TokensOf(x)) == TagsOf(x)
  {
    hide TagWord, AsTokens, Shuts, Opens;
    if x.Text? {
      TagWordOne(Html(x.html));
    } else {
      var s, l, o := AsTokens(Shuts(x.closes)), [Literal(x.ch, x.count)], AsTokens(Opens(x.opens));
      TagWordConcat(s + l, o);
      TagWordConcat(s, l);
      TagWordOne(Literal(x.ch, x.count));
      TagWordOfTags(Shuts(x.closes));
      TagWordOfTags(Opens(x.opens));
    }
  }

  lemma {:induction false} RenderedWord(pieces: seq<Piece>)
    ensures TagWord(Render(pieces)) == Word(pieces, 0, |pieces|)
    decreases |pieces|
  {
    if pieces == [] {
      assert TagWord([]) == [];
    } else {
      hide TagWord, TokensOf, TagsOf;
      var n, x := |pieces| - 1, pieces[|pieces| - 1];
      RenderedWord(pieces[..n]);
      WordAgree(pieces, pieces[..n], 0, n);
      TagWordConcat(Render(pieces[..n]), TokensOf(x));
      TagWordOfPiece(x);
    }
  }

  /** For every paragraph, the `<em>` and `<strong>` tags the pass inserts form a
      properly nested, kind-matched word in the rendered output. */
  lemma {:induction false} EmphasisIsNested(pieces: seq<Piece>)
    requires forall i :: 0 <= i < |pieces| ==> Bare(pieces[i])
    ensures Balanced(TagWord(Render(Resolve(pieces))))
  {
    FromKeepsNesting(Pass(pieces, [], map[]), 0);
    RenderedWord(Resolve(pieces));
  }

  // ---- conservation ------------------------------------------------------

  function Size(kinds: seq<Kind>): nat {
    if kinds == [] then 0
    else Size(kinds[1..]) + if kinds[0].Strong? then 2 else 1
  }

  lemma {:induction false} SizeAppend(kinds: seq<Kind>, k: Kind)
    ensures Size(kinds + [k]) == Size(kinds) + if k.Strong? then 2 else 1
    decreases |kinds|
  {
    if kinds == [] {
      assert kinds + [k] == [k] && [k][1..] == [];
    } else {
      SizeAppend(kinds[1..], k);
      assert (kinds + [k])[1..] == kinds[1..] + [k];
    }
  }

  lemma {:induction false} SizePrepend(kinds: seq<Kind>, k: Kind)
    ensures Size([k] + kinds) == Size(kinds) + if k.Strong? then 2 else 1
  {
    assert ([k] + kinds)[1..] == kinds;
  }

  /** Delimiters left over plus delimiters turned into tags: one each for `em`,
      two each for `strong`. */
  function Spent(x: Piece): nat
    requires x.Run?
  {
    x.count + Size(x.opens) + Size(x.closes)
  }

  /** `y` is `x` with some of its delimiters turned into tags. */
  ghost predicate Conserves(x: Piece, y: Piece) {
    if x.Text? then y == x
    else y.Run? && y.ch == x.ch && y.orig == x.orig && y.canOpen == x.canOpen && y.canClose == x.canClose &&
         Spent(y) == Spent(x)
  }

  lemma {:induction false} PairConserves(pieces: seq<Piece>, o: nat, c: nat, i: nat)
    requires o < c < |pieces| && pieces[o].Run? && pieces[c].Run? && pieces[o].count > 0 && pieces[c].count > 0
    requires i < |pieces|
    ensures Conserves(pieces[i], Pair(pieces, o, c)[i])
  {
    var k := KindOf(Used(pieces[o], pieces[c]));
    SizePrepend(pieces[o].opens, k);
    SizeAppend(pieces[c].closes, k);
  }

  lemma {:induction false} CloseConserves(pieces: seq<Piece>, stack: seq<nat>, c: nat, floor: nat, i: nat)
    requires Ready(pieces, stack, c) && i < |pieces|
    ensures Conserves(pieces[i], Close(pieces, stack, c, floor).0[i])
    decreases pieces[c].count
  {
    if pieces[c].count > 0 {
      match FindOpener(pieces, stack, KeyOf(pieces[c]), |stack|, floor)
      case None =>
      case Some(found) =>
        var after := Pair(pieces, stack[found], c);
        PairConserves(pieces, stack[found], c, i);
        CloseConserves(after, Cut(after, stack, found), c, floor, i);
    }
  }

  lemma {:induction false} FromConserves(p: Pass, c: nat, i: nat)
    requires c <= |p.pieces| && StackOk(p.pieces, p.stack, c) && i < |p.pieces|
    ensures Conserves(p.pieces[i], From(p, c).pieces[i])
    decreases |p.pieces| - c
  {
    if c < |p.pieces| {
      TurnKeepsStack(p, c);
      if p.pieces[c].Run? && p.pieces[c].canClose {
        CloseConserves(p.pieces, p.stack, c, FloorOf(p.bottom, KeyOf(p.pieces[c])), i);
      }
      FromConserves(Turn(p, c), c + 1, i);
    }
  }

  /** Each delimiter run is conserved: what remains, plus one per `em` tag and
      two per `strong` tag at it, is its original length. */
  lemma {:induction false} RunsAreConserved(pieces: seq<Piece>, i: nat)
    requires i < |pieces| && Bare(pieces[i]) && (pieces[i].Run? ==> pieces[i].count == pieces[i].orig)
    ensures var y := Resolve(pieces)[i];
            if pieces[i].Text? then y == pieces[i]
            else y.Run? && y.ch == pieces[i].ch && y.orig == pieces[i].orig &&
                 y.count + Size(y.opens) + Size(y.closes) == pieces[i].orig
  {
    FromConserves(Pass(pieces, [], map[]), 0, i);
  }

  // ---- the pass as the source writes it ----------------------------------

  method ResolveEmphasis(input: seq<Piece>) returns (pieces: seq<Piece>)
    ensures pieces == Resolve(input)
  {
    hide Turn, From, StackOk;
    pieces := input;
    var stack: seq<nat> := [];
    var bottom: map<Key, nat> := map[];
    var index := 0;
    NobodyOpens(pieces);
    while index < |pieces|
      invariant index <= |pieces| == |input| && StackOk(pieces, stack, index)
      invariant From(Pass(pieces, stack, bottom), index).pieces == Resolve(input)
    {
      FromTurns(Pass(pieces, stack, bottom), index);
      pieces, stack, bottom := TakeTurn(pieces, stack, bottom, index);
      index := index + 1;
    }
    FromEnds(Pass(pieces, stack, bottom));
  }

  /** One turn of the pass. */
  method TakeTurn(before: seq<Piece>, openers: seq<nat>, floors: map<Key, nat>, index: nat)
      returns (pieces: seq<Piece>, stack: seq<nat>, bottom: map<Key, nat>)
    requires index < |before| && StackOk(before, openers, index)
    ensures Pass(pieces, stack, bottom) == Turn(Pass(before, openers, floors), index)
  {
    hide Close, Matches, FindOpener, StackOk;
    pieces, stack, bottom := before, openers, floors;
    if pieces[index].Run? {
      if pieces[index].canClose {
        var key := KeyOf(pieces[index]);
        var floor := if key in bottom then bottom[key] else 0;
        var matched;
        pieces, stack, matched := CloseRun(pieces, stack, index, floor);
        if !matched {
          bottom := bottom[key := |stack|];
        }
      }
      if pieces[index].count > 0 && pieces[index].canOpen {
        stack := stack + [index];
      }
    }
  }

  lemma {:induction false} NobodyOpens(pieces: seq<Piece>)
    ensures StackOk(pieces, [], 0)
  {
  }

  lemma {:induction false} FromTurns(p: Pass, c: nat)
    requires c < |p.pieces| && StackOk(p.pieces, p.stack, c)
    ensures StackOk(Turn(p, c).pieces, Turn(p, c).stack, c + 1) && From(p, c) == From(Turn(p, c), c + 1)
  {
    hide Turn, StackOk;
    TurnKeepsStack(p, c);
  }

  lemma {:induction false} FromEnds(p: Pass)
    requires StackOk(p.pieces, p.stack, |p.pieces|)
    ensures From(p, |p.pieces|) == p
  {
  }

  /** The back-scan for the nearest opener above the floor. */
  method ScanBack(pieces: seq<Piece>, stack: seq<nat>, key: Key, floor: nat) returns (found: Option<nat>)
    requires forall j :: 0 <= j < |stack| ==> stack[j] < |pieces|
    ensures found == FindOpener(pieces, stack, key, |stack|, floor)
  {
    var s: nat := |stack|;
    while s > floor
      invariant s <= |stack|
      invariant FindOpener(pieces, stack, key, |stack|, floor) == FindOpener(pieces, stack, key, s, floor)
    {
      if Compatible(pieces[stack[s - 1]], key) {
        return Some(s - 1);
      }
      s := s - 1;
    }
    found := None;
  }

  lemma {:induction false} StackInRange(pieces: seq<Piece>, stack: seq<nat>, c: nat)
    requires StackOk(pieces, stack, c)
    ensures forall j :: 0 <= j < |stack| ==> stack[j] < |pieces|
  {
  }

  lemma {:induction false} CloseUnfolds(pieces: seq<Piece>, stack: seq<nat>, c: nat, floor: nat, found: nat)
    requires Ready(pieces, stack, c) && pieces[c].count > 0
    requires FindOpener(pieces, stack, KeyOf(pieces[c]), |stack|, floor) == Some(found)
    ensures found < |stack| && stack[found] < c && pieces[stack[found]].Run? && pieces[stack[found]].count > 0
    ensures var after := Pair(pieces, stack[found], c);
            var rest := Cut(after, stack, found);
            Ready(after, rest, c) && Close(pieces, stack, c, floor) == Close(after, rest, c, floor)
  {
  }

  lemma {:induction false} CloseEnds(pieces: seq<Piece>, stack: seq<nat>, c: nat, floor: nat)
    requires Ready(pieces, stack, c)
    requires pieces[c].count == 0 || FindOpener(pieces, stack, KeyOf(pieces[c]), |stack|, floor).None?
    ensures Close(pieces, stack, c, floor) == (pieces, stack)
  {
  }

  /** The closing loop: scan back for an opener, pair, repeat. */
  method CloseRun(before: seq<Piece>, openers: seq<nat>, index: nat, floor: nat)
      returns (pieces: seq<Piece>, stack: seq<nat>, matched: bool)
    requires Ready(before, openers, index)
    ensures (pieces, stack) == Close(before, openers, index, floor)
    ensures matched == Matches(before, openers, index, floor)
  {
    hide Close, FindOpener, StackOk;
    pieces, stack, matched := before, openers, false;
    while pieces[index].count > 0
      invariant Ready(pieces, stack, index)
      invariant Close(pieces, stack, index, floor) == Close(before, openers, index, floor)
      invariant if matched then Matches(before, openers, index, floor) else pieces == before && stack == openers
      decreases pieces[index].count
    {
      var key := KeyOf(pieces[index]);
      assert forall j :: 0 <= j < |stack| ==> stack[j] < |pieces| by {
        StackInRange(pieces, stack, index);
      }
      var found := ScanBack(pieces, stack, key, floor);
      if found.None? {
        CloseEnds(pieces, stack, index, floor);
        return;
      }
      CloseUnfolds(pieces, stack, index, floor, found.value);
      ghost var after := Pair(pieces, stack[found.value], index);
      ghost var rest := Cut(after, stack, found.value);
      var o := stack[found.value];
      var opener, closer := pieces[o], pieces[index];
      var used := if opener.count >= 2 && closer.count >= 2 then 2 else 1;
      var kind := if used == 2 then Strong else Em;
      pieces := pieces[o := opener.(opens := [kind] + opener.opens, count := opener.count - used)];
      pieces := pieces[index := closer.(closes := closer.closes + [kind], count := closer.count - used)];
      matched := true;
      stack := stack[..found.value + 1];
      if pieces[o].count == 0 {
        stack := stack[..found.value];
      }
      assert pieces == after && stack == rest;
    }
    CloseEnds(pieces, stack, index, floor);
  }

  // ---- what the floors cost ----------------------------------------------

  /** The pass without floors: every closer scans the whole stack. */
  function PlainTurn(p: Pass, c: nat): (q: Pass)
    requires c < |p.pieces| && StackOk(p.pieces, p.stack, c)
    ensures |q.pieces| == |p.pieces| && StackOk(q.pieces, q.stack, c + 1)
  {
    var r := Turn(p.(bottom := map[]), c);
    TurnKeepsStack(p.(bottom := map[]), c);
    r.(bottom := map[])
  }

  function PlainFrom(p: Pass, c: nat): (q: Pass)
    requires c <= |p.pieces| && StackOk(p.pieces, p.stack, c)
    ensures |q.pieces| == |p.pieces|
    decreases |p.pieces| - c
  {
    if c == |p.pieces| then p else PlainFrom(PlainTurn(p, c), c + 1)
  }

  function PlainResolve(pieces: seq<Piece>): seq<Piece> {
    PlainFrom(Pass(pieces, [], map[]), 0).pieces
  }

  ghost predicate CanCloseAt(p: Pass, c: nat) {
    c < |p.pieces| && StackOk(p.pieces, p.stack, c) && p.pieces[c].Run? && p.pieces[c].canClose
  }

  /** The closer at `c` ends with delimiters to spare although an opener for it
      stands below its floor. */
  ghost predicate HidesOpener(p: Pass, c: nat)
    requires CanCloseAt(p, c)
  {
    var key := KeyOf(p.pieces[c]);
    var floor := FloorOf(p.bottom, key);
    var (pieces, stack) := Close(p.pieces, p.stack, c, floor);
    pieces[c].count > 0 && exists j :: 0 <= j < floor && j < |stack| && Compatible(pieces[stack[j]], key)
  }

  ghost predicate NothingHidden(p: Pass, c: nat)
    requires c <= |p.pieces| && StackOk(p.pieces, p.stack, c)
    decreases |p.pieces| - c
  {
    c == |p.pieces| ||
    (TurnKeepsStack(p, c); (CanCloseAt(p, c) ==> !HidesOpener(p, c)) && NothingHidden(Turn(p, c), c + 1))
  }

  /** Closing with a floor and without agree exactly when no opener below the
      floor is left for a closer that still has delimiters; otherwise the closer
      loses closing tags. */
  lemma {:induction false} FloorExact(pieces: seq<Piece>, stack: seq<nat>, c: nat, floor: nat)
    requires Ready(pieces, stack, c)
    ensures var (ps, st) := Close(pieces, stack, c, floor);
            var (full, _) := Close(pieces, stack, c, 0);
            if ps[c].count > 0 &&
               exists j :: 0 <= j < floor && j < |st| && Compatible(ps[st[j]], KeyOf(pieces[c]))
            then full[c].Run? && |ps[c].closes| < |full[c].closes|
            else Close(pieces, stack, c, floor) == Close(pieces, stack, c, 0)
    decreases pieces[c].count
  {
    if pieces[c].count > 0 {
      var key := KeyOf(pieces[c]);
      match FindOpener(pieces, stack, key, |stack|, floor) {
        case Some(found) =>
          FloorRaises(pieces, stack, key, |stack|, floor);
          CloseUnfolds(pieces, stack, c, floor, found);
          CloseUnfolds(pieces, stack, c, 0, found);
          var after := Pair(pieces, stack[found], c);
          FloorExact(after, Cut(after, stack, found), c, floor);
        case None =>
          CloseEnds(pieces, stack, c, floor);
          match FindOpener(pieces, stack, key, |stack|, 0) {
            case Some(found) =>
              CloseUnfolds(pieces, stack, c, 0, found);
              var after := Pair(pieces, stack[found], c);
              ClosesGrow(after, Cut(after, stack, found), c, 0);
            case None =>
          }
      }
    }
  }

  /** An opener found above the floor is the one a full scan finds. */
  lemma {:induction false} FloorRaises(pieces: seq<Piece>, stack: seq<nat>, key: Key, n: nat, floor: nat)
    requires n <= |stack| && forall j :: 0 <= j < |stack| ==> stack[j] < |pieces|
    requires FindOpener(pieces, stack, key, n, floor).Some?
    ensures FindOpener(pieces, stack, key, n, 0) == FindOpener(pieces, stack, key, n, floor)
    decreases n
  {
    if !Compatible(pieces[stack[n - 1]], key) {
      FloorRaises(pieces, stack, key, n - 1, floor);
    }
  }

  lemma {:induction false} ClosesGrow(pieces: seq<Piece>, stack: seq<nat>, c: nat, floor: nat)
    requires Ready(pieces, stack, c)
    ensures var r := Close(pieces, stack, c, floor);
            |pieces[c].closes| <= |r.0[c].closes|
            && forall i :: 0 <= i < c && pieces[i].Run? ==> r.0[i].Run? && r.0[i].closes == pieces[i].closes
    decreases pieces[c].count
  {
    if pieces[c].count > 0 {
      match FindOpener(pieces, stack, KeyOf(pieces[c]), |stack|, floor)
      case None =>
      case Some(found) =>
        var after := Pair(pieces, stack[found], c);
        ClosesGrow(after, Cut(after, stack, found), c, floor);
    }
  }

  lemma {:induction false} FromKeepsCloses(p: Pass, c: nat, i: nat)
    requires c <= |p.pieces| && StackOk(p.pieces, p.stack, c) && i < c && p.pieces[i].Run?
    ensures From(p, c).pieces[i].Run? && From(p, c).pieces[i].closes == p.pieces[i].closes
    decreases |p.pieces| - c
  {
    if c < |p.pieces| {
      TurnKeepsStack(p, c);
      TurnKeepsCloses(p, c, i);
      FromKeepsCloses(Turn(p, c), c + 1, i);
    }
  }

  lemma {:induction false} TurnKeepsCloses(p: Pass, c: nat, i: nat)
    requires i < c < |p.pieces| && StackOk(p.pieces, p.stack, c) && p.pieces[i].Run?
    ensures Turn(p, c).pieces[i].Run? && Turn(p, c).pieces[i].closes == p.pieces[i].closes
  {
    if p.pieces[c].Run? && p.pieces[c].canClose {
      ClosesGrow(p.pieces, p.stack, c, FloorOf(p.bottom, KeyOf(p.pieces[c])));
    }
  }

  lemma {:induction false} PlainKeepsCloses(p: Pass, c: nat, i: nat)
    requires c <= |p.pieces| && StackOk(p.pieces, p.stack, c) && i < c && p.pieces[i].Run?
    ensures PlainFrom(p, c).pieces[i].Run? && PlainFrom(p, c).pieces[i].closes == p.pieces[i].closes
    decreases |p.pieces| - c
  {
    if c < |p.pieces| {
      TurnKeepsCloses(p.(bottom := map[]), c, i);
      PlainKeepsCloses(PlainTurn(p, c), c + 1, i);
    }
  }

  lemma {:induction false} TurnExact(p: Pass, c: nat)
    requires c < |p.pieces| && StackOk(p.pieces, p.stack, c)
    ensures var q, full := Turn(p, c), PlainTurn(p, c);
            if CanCloseAt(p, c) && HidesOpener(p, c)
            then q.pieces[c].Run? && full.pieces[c].Run? && q.pieces[c].closes != full.pieces[c].closes
            else q.pieces == full.pieces && q.stack == full.stack
  {
    hide FindOpener, Close;
    if CanCloseAt(p, c) {
      FloorExact(p.pieces, p.stack, c, FloorOf(p.bottom, KeyOf(p.pieces[c])));
    }
  }

  lemma {:induction false} PlainIgnoresFloors(p: Pass, q: Pass, c: nat)
    requires c <= |p.pieces| && StackOk(p.pieces, p.stack, c) && q.pieces == p.pieces && q.stack == p.stack
    ensures PlainFrom(p, c).pieces == PlainFrom(q, c).pieces
  {
    assert p.(bottom := map[]) == q.(bottom := map[]);
  }

  lemma {:induction false} FloorsExactFrom(p: Pass, c: nat)
    requires c <= |p.pieces| && StackOk(p.pieces, p.stack, c)
    ensures From(p, c).pieces == PlainFrom(p, c).pieces <==> NothingHidden(p, c)
    decreases |p.pieces| - c
  {
    hide Turn, PlainTurn, HidesOpener, StackOk, CanCloseAt, From, PlainFrom;
    if c < |p.pieces| {
      UnfoldPasses(p, c);
      TurnExact(p, c);
      var q, full := Turn(p, c), PlainTurn(p, c);
      if CanCloseAt(p, c) && HidesOpener(p, c) {
        FromKeepsCloses(q, c + 1, c);
        PlainKeepsCloses(full, c + 1, c);
      } else {
        FloorsExactFrom(q, c + 1);
        PlainIgnoresFloors(full, q, c + 1);
      }
    } else {
      FromEnds(p);
      PlainFromEnds(p);
    }
  }

  lemma {:induction false} UnfoldPasses(p: Pass, c: nat)
    requires c < |p.pieces| && StackOk(p.pieces, p.stack, c)
    ensures StackOk(Turn(p, c).pieces, Turn(p, c).stack, c + 1)
    ensures |Turn(p, c).pieces| == |p.pieces| == |PlainTurn(p, c).pieces|
    ensures StackOk(PlainTurn(p, c).pieces, PlainTurn(p, c).stack, c + 1)
    ensures From(p, c) == From(Turn(p, c), c + 1) && PlainFrom(p, c) == PlainFrom(PlainTurn(p, c), c + 1)
  {
    hide Turn, PlainTurn, StackOk;
    TurnKeepsStack(p, c);
  }

  lemma {:induction false} PlainFromEnds(p: Pass)
    requires StackOk(p.pieces, p.stack, |p.pieces|)
    ensures PlainFrom(p, |p.pieces|) == p
  {
  }

  /** The floors change the result exactly when, at some closer, an opener is
      hidden below the floor. */
  lemma {:induction false} FloorsExact(pieces: seq<Piece>)
    ensures Resolve(pieces) == PlainResolve(pieces) <==> NothingHidden(Pass(pieces, [], map[]), 0)
  {
    FloorsExactFrom(Pass(pieces, [], map[]), 0);
  }

  // ---- a floor the stack never fell below hides nothing ------------------

  function Kept(kept: map<Key, nat>, key: Key): nat {
    if key in kept then kept[key] else 0
  }

  /** For each key, the smallest stack since its floor was recorded. Recording
      again over a floor the stack had fallen below does not restore it. */
  function KeptAfter(p: Pass, kept: map<Key, nat>, c: nat): map<Key, nat>
    requires c < |p.pieces| && StackOk(p.pieces, p.stack, c)
  {
    if !(p.pieces[c].Run? && p.pieces[c].canClose) then kept
    else
      var key := KeyOf(p.pieces[c]);
      var floor := FloorOf(p.bottom, key);
      var low := |Close(p.pieces, p.stack, c, floor).1|;
      var lowered := map k | k in kept :: Least(kept[k], low);
      if Matches(p.pieces, p.stack, c, floor) then lowered
      else lowered[key := if floor <= Kept(kept, key) then low else Least(Kept(kept, key), low)]
  }

  /** Below the kept size no opener suits the key. */
  ghost predicate KeptOk(p: Pass, kept: map<Key, nat>) {
    forall key :: key in kept ==> NoneBelow(p, key, kept[key])
  }

  ghost predicate NoneBelow(p: Pass, key: Key, n: nat) {
    n <= |p.stack| && forall j :: 0 <= j < n ==> p.stack[j] < |p.pieces| && !Compatible(p.pieces[p.stack[j]], key)
  }

  lemma {:induction false} PairOnlyWeakens(pieces: seq<Piece>, o: nat, c: nat, i: nat, key: Key)
    requires o < c < |pieces| && pieces[o].Run? && pieces[c].Run? && pieces[o].count > 0 && pieces[c].count > 0
    requires i < c
    ensures Compatible(Pair(pieces, o, c)[i], key) ==> Compatible(pieces[i], key)
  {
  }

  /** Closing cuts the stack to a prefix and creates no new opener. */
  lemma {:induction false} CloseOnlyWeakens(pieces: seq<Piece>, stack: seq<nat>, c: nat, floor: nat)
    requires Ready(pieces, stack, c)
    ensures var r := Close(pieces, stack, c, floor);
            && r.1 <= stack
            && forall j, key :: 0 <= j < |r.1| && Compatible(r.0[r.1[j]], key) ==> Compatible(pieces[stack[j]], key)
    decreases pieces[c].count
  {
    hide Compatible;
    if pieces[c].count > 0 {
      match FindOpener(pieces, stack, KeyOf(pieces[c]), |stack|, floor)
      case None =>
      case Some(found) =>
        var after := Pair(pieces, stack[found], c);
        var rest := Cut(after, stack, found);
        CloseOnlyWeakens(after, rest, c, floor);
        var r := Close(after, rest, c, floor);
        forall j, key | 0 <= j < |r.1| && Compatible(r.0[r.1[j]], key) ensures Compatible(pieces[stack[j]], key) {
          PairOnlyWeakens(pieces, stack[found], c, stack[j], key);
        }
    }
  }

  lemma {:induction false} TurnOnlyWeakens(p: Pass, c: nat, key: Key, n: nat)
    requires c < |p.pieces| && StackOk(p.pieces, p.stack, c) && NoneBelow(p, key, n)
    ensures var low := if CanCloseAt(p, c) then |Close(p.pieces, p.stack, c, FloorOf(p.bottom, KeyOf(p.pieces[c]))).1|
                       else n;
            NoneBelow(Turn(p, c), key, Least(n, low))
  {
    if CanCloseAt(p, c) {
      hide FindOpener, Compatible;
      CloseOnlyWeakens(p.pieces, p.stack, c, FloorOf(p.bottom, KeyOf(p.pieces[c])));
    }
  }

  lemma {:induction false} TurnKeepsKept(p: Pass, kept: map<Key, nat>, c: nat)
    requires c < |p.pieces| && StackOk(p.pieces, p.stack, c) && KeptOk(p, kept)
    requires p.pieces[c].Run? ==> p.pieces[c].count > 0
    ensures KeptOk(Turn(p, c), KeptAfter(p, kept, c))
  {
    var q, after := Turn(p, c), KeptAfter(p, kept, c);
    forall key | key in after ensures NoneBelow(q, key, after[key]) {
      TurnOnlyWeakens(p, c, key, Kept(kept, key));
      if CanCloseAt(p, c) && key == KeyOf(p.pieces[c]) {
        var floor := FloorOf(p.bottom, key);
        if !Matches(p.pieces, p.stack, c, floor) && floor <= Kept(kept, key) {
          CloseEnds(p.pieces, p.stack, c, floor);
          assert NoneBelow(p, key, |p.stack|);
          TurnOnlyWeakens(p, c, key, |p.stack|);
        }
      }
    }
  }

  /** While the stack has not fallen below a recorded floor since, scanning above
      the floor hides no opener. */
  lemma {:induction false} KeptFloorHidesNothing(p: Pass, kept: map<Key, nat>, c: nat)
    requires CanCloseAt(p, c) && KeptOk(p, kept)
    requires FloorOf(p.bottom, KeyOf(p.pieces[c])) <= Kept(kept, KeyOf(p.pieces[c]))
    ensures !HidesOpener(p, c)
  {
    var key := KeyOf(p.pieces[c]);
    CloseOnlyWeakens(p.pieces, p.stack, c, FloorOf(p.bottom, key));
    assert NoneBelow(p, key, Kept(kept, key));
  }

  ghost predicate NeverFellBelow(p: Pass, kept: map<Key, nat>, c: nat)
    requires c <= |p.pieces| && StackOk(p.pieces, p.stack, c)
    decreases |p.pieces| - c
  {
    c == |p.pieces| ||
    (TurnKeepsStack(p, c);
     (CanCloseAt(p, c) ==> FloorOf(p.bottom, KeyOf(p.pieces[c])) <= Kept(kept, KeyOf(p.pieces[c]))) &&
     NeverFellBelow(Turn(p, c), KeptAfter(p, kept, c), c + 1))
  }

  lemma {:induction false} KeptFloorsFrom(p: Pass, kept: map<Key, nat>, c: nat)
    requires c <= |p.pieces| && StackOk(p.pieces, p.stack, c) && KeptOk(p, kept)
    requires forall i :: c <= i < |p.pieces| && p.pieces[i].Run? ==> p.pieces[i].count > 0
    requires NeverFellBelow(p, kept, c)
    ensures NothingHidden(p, c)
    decreases |p.pieces| - c
  {
    if c < |p.pieces| {
      hide Turn, HidesOpener, KeptAfter, KeptOk;
      TurnKeepsStack(p, c);
      TurnKeepsKept(p, kept, c);
      if CanCloseAt(p, c) {
        KeptFloorHidesNothing(p, kept, c);
      }
      KeptFloorsFrom(Turn(p, c), KeptAfter(p, kept, c), c + 1);
    }
  }

  /** When the stack never falls below a floor that is consulted later, the pass
      with floors is the pass without. */
  lemma {:induction false} KeptFloorsAreHarmless(pieces: seq<Piece>)
    requires forall i :: 0 <= i < |pieces| && pieces[i].Run? ==> pieces[i].count > 0
    requires NeverFellBelow(Pass(pieces, [], map[]), map[], 0)
    ensures Resolve(pieces) == PlainResolve(pieces)
  {
    KeptFloorsFrom(Pass(pieces, [], map[]), map[], 0);
    FloorsExact(pieces);
  }

  // ---- a paragraph the floors change -------------------------------------

  function One(ch: char, canOpen: bool, canClose: bool): Piece {
    Run(ch, 1, 1, canOpen, canClose, [], [])
  }

  /** The pieces of `_c* d_ *x*`. */
  const SAMPLE: seq<Piece> := [
    One('_', true, false), Text("c"), One('*', false, true), Text(" d"), One('_', false, true), Text(" "),
    One('*', true, false), Text("x"), One('*', false, true)]

  lemma {:induction false} LaterHidden(p: Pass, c: nat, q: Pass)
    requires c < |p.pieces| && StackOk(p.pieces, p.stack, c) && q == Turn(p, c)
    ensures StackOk(q.pieces, q.stack, c + 1) && |q.pieces| == |p.pieces|
    ensures !NothingHidden(q, c + 1) ==> !NothingHidden(p, c)
  {
    TurnKeepsStack(p, c);
  }

  lemma {:induction false} UnmatchedTurn(p: Pass, c: nat)
    requires CanCloseAt(p, c) && !p.pieces[c].canOpen
    requires FindOpener(p.pieces, p.stack, KeyOf(p.pieces[c]), |p.stack|, FloorOf(p.bottom, KeyOf(p.pieces[c]))).None?
    ensures Turn(p, c) == p.(bottom := p.bottom[KeyOf(p.pieces[c]) := |p.stack|])
  {
    CloseEnds(p.pieces, p.stack, c, FloorOf(p.bottom, KeyOf(p.pieces[c])));
  }

  lemma {:induction false} SinglePairTurn(p: Pass, c: nat, found: nat)
    requires CanCloseAt(p, c) && !p.pieces[c].canOpen && p.pieces[c].count == 1
    requires FindOpener(p.pieces, p.stack, KeyOf(p.pieces[c]), |p.stack|, FloorOf(p.bottom, KeyOf(p.pieces[c])))
             == Some(found)
    ensures found < |p.stack| && p.stack[found] < c && p.pieces[p.stack[found]].Run?
    ensures p.pieces[p.stack[found]].count > 0
    ensures var after := Pair(p.pieces, p.stack[found], c);
            Turn(p, c) == Pass(after, Cut(after, p.stack, found), p.bottom)
  {
    var floor := FloorOf(p.bottom, KeyOf(p.pieces[c]));
    CloseUnfolds(p.pieces, p.stack, c, floor, found);
    var after := Pair(p.pieces, p.stack[found], c);
    CloseEnds(after, Cut(after, p.stack, found), c, floor);
  }

  /** Passes over the sample: the stack, and whether the underscores are paired
      and the floor of the stars is recorded. */
  function At(paired: bool, stack: seq<nat>, recorded: bool): Pass {
    Pass(if paired then Pair(SAMPLE, 0, 4) else SAMPLE, stack, if recorded then map[Key('*', false, 1) := 1] else map[])
  }

  lemma {:induction false} FirstStar()
    ensures Turn(At(false, [0], false), 2) == At(false, [0], true)
  {
    UnmatchedTurn(At(false, [0], false), 2);
  }

  lemma {:induction false} SecondUnderscore()
    ensures Turn(At(false, [0], true), 4) == At(true, [], true)
  {
    SinglePairTurn(At(false, [0], true), 4, 0);
    assert Cut(Pair(SAMPLE, 0, 4), [0], 0) == [];
  }

  lemma {:induction false} Openers()
    ensures Turn(At(false, [], false), 0) == At(false, [0], false)
    ensures Turn(At(true, [], true), 6) == At(true, [6], true)
  {
    assert [] + [0] == [0] && [] + [6] == [6];
  }

  lemma {:induction false} TextTurns(paired: bool, stack: seq<nat>, recorded: bool)
    ensures var p := At(paired, stack, recorded);
            |p.pieces| == 9 && p.pieces[1].Text? && p.pieces[3].Text? && p.pieces[5].Text? && p.pieces[7].Text?
  {
  }

  lemma {:induction false} TextTurn(p: Pass, c: nat)
    requires c < |p.pieces| && p.pieces[c].Text?
    ensures Turn(p, c) == p
  {
  }

  /** The first star records a floor of one, the second underscore empties the
      stack, and the last star then looks only above the floor: the emphasis
      around `x` is lost, although a scan of the whole stack finds its opener. */
  lemma {:induction false} FloorsCanHideAnOpener()
    ensures Resolve(SAMPLE) != PlainResolve(SAMPLE)
  {
    assert At(false, [], false) == Pass(SAMPLE, [], map[]);
    assert StackOk(SAMPLE, [], 0);
    hide NothingHidden, Turn, StackOk, At, Resolve, PlainResolve;
    var p0, p1, p3, p5, p7 :=
      At(false, [], false), At(false, [0], false), At(false, [0], true), At(true, [], true), At(true, [6], true);
    TextTurns(false, [], false);
    TextTurns(false, [0], false);
    TextTurns(false, [0], true);
    TextTurns(true, [], true);
    TextTurns(true, [6], true);
    Openers();
    FirstStar();
    SecondUnderscore();
    LaterHidden(p0, 0, p1);
    TextTurn(p1, 1);
    LaterHidden(p1, 1, p1);
    LaterHidden(p1, 2, p3);
    TextTurn(p3, 3);
    LaterHidden(p3, 3, p3);
    LaterHidden(p3, 4, p5);
    TextTurn(p5, 5);
    LaterHidden(p5, 5, p5);
    LaterHidden(p5, 6, p7);
    TextTurn(p7, 7);
    LaterHidden(p7, 7, p7);
    LastStarHides(p7);
    FloorsExact(SAMPLE);
  }

  lemma {:induction false} LastStarHides(p: Pass)
    requires p == At(true, [6], true)
    ensures StackOk(p.pieces, p.stack, 8) && !NothingHidden(p, 8)
  {
    CloseEnds(p.pieces, p.stack, 8, 1);
    assert Compatible(p.pieces[p.stack[0]], Key('*', false, 1));
    assert HidesOpener(p, 8);
  }

  // ---- the rule of three ----------------------------------------------------

  /** A run opens for a closer exactly when both are of one character, the opener may
      open and has delimiters left, and, where one of the two may both open and close,
      the lengths do not add up to a multiple of three unless both are one. */
  lemma {:induction false} OpensForExactly(opener: Piece, closer: Piece)
    requires opener.Run? && closer.Run?
    ensures Compatible(opener, KeyOf(closer)) <==>
              && opener.ch == closer.ch && opener.canOpen && opener.count > 0
              && (opener.canClose || closer.canOpen ==>
                    (opener.orig + closer.orig) % 3 != 0 || (opener.orig % 3 == 0 && closer.orig % 3 == 0))
  {
    ResiduesAdd(opener.orig, closer.orig);
  }

  lemma {:induction false} ResiduesAdd(a: nat, b: nat)
    ensures (a + b % 3) % 3 == (a + b) % 3
  {
  }
}
