/** Which tags the emphasis pass makes (src/mapping/markdown_inline.cpp): who pairs with
    whom, as emphasis or as strong emphasis. */
module EmphasisKinds {
  import opened Common
  import opened Emphasis

  /** One pair: the runs it joins and the tag the closer shows for it. */
  datatype Link = Link(opener: nat, closer: nat, kind: Kind)

  /** The pairs one closer makes, in order. */
  ghost function Links(pieces: seq<Piece>, stack: seq<nat>, c: nat, floor: nat): seq<Link>
    requires Ready(pieces, stack, c)
    decreases pieces[c].count
  {
    if pieces[c].count == 0 then []
    else
      match FindOpener(pieces, stack, KeyOf(pieces[c]), |stack|, floor)
      case None => []
      case Some(found) =>
        var after := Pair(pieces, stack[found], c);
        [Link(stack[found], c, after[c].closes[|after[c].closes| - 1])] +
        Links(after, Cut(after, stack, found), c, floor)
  }

  ghost function LinksAt(p: Pass, c: nat): seq<Link>
    requires c < |p.pieces| && StackOk(p.pieces, p.stack, c)
  {
    if p.pieces[c].Run? && p.pieces[c].canClose
    then Links(p.pieces, p.stack, c, FloorOf(p.bottom, KeyOf(p.pieces[c])))
    else []
  }

  ghost function LinksFrom(p: Pass, c: nat): seq<Link>
    requires c <= |p.pieces| && StackOk(p.pieces, p.stack, c)
    decreases |p.pieces| - c
  {
    if c == |p.pieces| then []
    else
      TurnKeepsStack(p, c);
      LinksAt(p, c) + LinksFrom(Turn(p, c), c + 1)
  }

  /** Every pair of a paragraph. */
  ghost function AllLinks(pieces: seq<Piece>): seq<Link> {
    LinksFrom(Pass(pieces, [], map[]), 0)
  }

  // ---- the tags are the pairs --------------------------------------------

  /** The opening tags of run `i`, the pair made last outermost. */
  function OpensOf(links: seq<Link>, i: nat): seq<Kind> {
    if links == [] then [] else OpensOf(links[1..], i) + if links[0].opener == i then [links[0].kind] else []
  }

  /** The closing tags of run `i`, in the order of its pairs. */
  function ClosesOf(links: seq<Link>, i: nat): seq<Kind> {
    if links == [] then [] else (if links[0].closer == i then [links[0].kind] else []) + ClosesOf(links[1..], i)
  }

  lemma {:induction false} TagsAppend(a: seq<Link>, b: seq<Link>, i: nat)
    ensures OpensOf(a + b, i) == OpensOf(b, i) + OpensOf(a, i) && ClosesOf(a + b, i) == ClosesOf(a, i) + ClosesOf(b, i)
    decreases |a|
  {
    if a == [] {
      assert a + b == b;
    } else {
      TagsAppend(a[1..], b, i);
      assert (a + b)[1..] == a[1..] + b;
    }
  }

  /** From `x` to `y` exactly the tags of the pairs were added to run `i`. */
  ghost predicate Gained(x: Piece, y: Piece, links: seq<Link>, i: nat) {
    if x.Run? then y.Run? && y.opens == OpensOf(links, i) + x.opens && y.closes == x.closes + ClosesOf(links, i)
    else y == x
  }

  lemma {:induction false} GainedTwice(x: Piece, y: Piece, z: Piece, a: seq<Link>, b: seq<Link>, i: nat)
    requires Gained(x, y, a, i) && Gained(y, z, b, i)
    ensures Gained(x, z, a + b, i)
  {
    TagsAppend(a, b, i);
  }

  lemma {:induction false} PairGains(pieces: seq<Piece>, o: nat, c: nat, i: nat)
    requires o < c < |pieces| && pieces[o].Run? && pieces[c].Run? && pieces[o].count > 0 && pieces[c].count > 0
    requires i < |pieces|
    ensures var after := Pair(pieces, o, c);
            Gained(pieces[i], after[i], [Link(o, c, after[c].closes[|after[c].closes| - 1])], i)
  {
    var after := Pair(pieces, o, c);
    var links := [Link(o, c, after[c].closes[|after[c].closes| - 1])];
    assert links[1..] == [];
    assert OpensOf(links, i) == (if o == i then [links[0].kind] else []);
    assert ClosesOf(links, i) == (if c == i then [links[0].kind] else []);
  }

  lemma {:induction false} CloseGains(pieces: seq<Piece>, stack: seq<nat>, c: nat, floor: nat, i: nat)
    requires Ready(pieces, stack, c) && i < |pieces|
    ensures Gained(pieces[i], Close(pieces, stack, c, floor).0[i], Links(pieces, stack, c, floor), i)
    decreases pieces[c].count
  {
    StackInRange(pieces, stack, c);
    hide FindOpener, StackOk, Gained, Pair;
    if pieces[c].count > 0 && FindOpener(pieces, stack, KeyOf(pieces[c]), |stack|, floor).Some? {
      var found := FindOpener(pieces, stack, KeyOf(pieces[c]), |stack|, floor).value;
      CloseUnfolds(pieces, stack, c, floor, found);
      PairLightens(pieces, stack[found], c);
      var after := Pair(pieces, stack[found], c);
      var rest := Cut(after, stack, found);
      PairGains(pieces, stack[found], c, i);
      CloseGains(after, rest, c, floor, i);
      GainedTwice(pieces[i], after[i], Close(after, rest, c, floor).0[i],
                  [Link(stack[found], c, after[c].closes[|after[c].closes| - 1])], Links(after, rest, c, floor), i);
    } else {
      CloseEnds(pieces, stack, c, floor);
      GainedNothing(pieces[i], i);
    }
  }

  lemma {:induction false} GainedNothing(x: Piece, i: nat)
    ensures Gained(x, x, [], i)
  {
  }

  lemma {:induction false} PairLightens(pieces: seq<Piece>, o: nat, c: nat)
    requires o < c < |pieces| && pieces[o].Run? && pieces[c].Run? && pieces[o].count > 0 && pieces[c].count > 0
    ensures |Pair(pieces, o, c)| == |pieces| && Pair(pieces, o, c)[o].Run? && Pair(pieces, o, c)[c].Run?
    ensures Pair(pieces, o, c)[c].count < pieces[c].count && Pair(pieces, o, c)[c].closes != []
  {
  }

  lemma {:induction false} TurnGains(p: Pass, c: nat, i: nat)
    requires c < |p.pieces| && StackOk(p.pieces, p.stack, c) && i < |p.pieces|
    ensures Gained(p.pieces[i], Turn(p, c).pieces[i], LinksAt(p, c), i)
  {
    hide Gained, Close, Links, StackOk;
    if p.pieces[c].Run? && p.pieces[c].canClose {
      CloseGains(p.pieces, p.stack, c, FloorOf(p.bottom, KeyOf(p.pieces[c])), i);
    } else {
      GainedNothing(p.pieces[i], i);
    }
  }

  lemma {:induction false} FromGains(p: Pass, c: nat, i: nat)
    requires c <= |p.pieces| && StackOk(p.pieces, p.stack, c) && i < |p.pieces|
    ensures Gained(p.pieces[i], From(p, c).pieces[i], LinksFrom(p, c), i)
    decreases |p.pieces| - c
  {
    hide Gained, Turn, LinksAt, StackOk, From;
    if c < |p.pieces| {
      FromTurns(p, c);
      TurnGains(p, c, i);
      FromGains(Turn(p, c), c + 1, i);
      GainedTwice(p.pieces[i], Turn(p, c).pieces[i], From(p, c).pieces[i], LinksAt(p, c),
        LinksFrom(Turn(p, c), c + 1), i);
    } else {
      FromEnds(p);
      GainedNothing(p.pieces[i], i);
    }
  }

  /** For every paragraph the tags shown at a run are exactly those of its pairs: opening
      tags with the pair made last outermost, closing tags in the order of the pairs. */
  lemma {:induction false} TagsAreLinks(pieces: seq<Piece>, i: nat)
    requires i < |pieces| && pieces[i].Run? && Bare(pieces[i])
    ensures var y := Resolve(pieces)[i];
            y.Run? && y.opens == OpensOf(AllLinks(pieces), i) && y.closes == ClosesOf(AllLinks(pieces), i)
  {
    NobodyOpens(pieces);
    FromGains(Pass(pieces, [], map[]), 0, i);
  }

  // ---- at most one plain emphasis per pair of runs -----------------------

  function EmCount(links: seq<Link>, o: nat, c: nat): nat {
    if links == [] then 0 else (if links[0] == Link(o, c, Em) then 1 else 0) + EmCount(links[1..], o, c)
  }

  lemma {:induction false} EmCountAppend(a: seq<Link>, b: seq<Link>, o: nat, c: nat)
    ensures EmCount(a + b, o, c) == EmCount(a, o, c) + EmCount(b, o, c)
    decreases |a|
  {
    if a == [] {
      assert a + b == b;
    } else {
      EmCountAppend(a[1..], b, o, c);
      assert (a + b)[1..] == a[1..] + b;
    }
  }

  /** A run without delimiters left opens nothing more. */
  lemma {:induction false} EmptyOpensNothing(pieces: seq<Piece>, stack: seq<nat>, c: nat, floor: nat, o: nat)
    requires Ready(pieces, stack, c) && o < c && (pieces[o].Run? ==> pieces[o].count == 0)
    ensures EmCount(Links(pieces, stack, c, floor), o, c) == 0
    decreases pieces[c].count
  {
    StackInRange(pieces, stack, c);
    hide StackOk;
    if pieces[c].count > 0 && FindOpener(pieces, stack, KeyOf(pieces[c]), |stack|, floor).Some? {
      var found := FindOpener(pieces, stack, KeyOf(pieces[c]), |stack|, floor).value;
      CloseUnfolds(pieces, stack, c, floor, found);
      hide FindOpener;
      PairLightens(pieces, stack[found], c);
      var after := Pair(pieces, stack[found], c);
      EmptyOpensNothing(after, Cut(after, stack, found), c, floor, o);
    }
  }

  /** A plain emphasis uses up one of its two runs. */
  lemma {:induction false} EmUsesUp(pieces: seq<Piece>, o: nat, c: nat)
    requires o < c < |pieces| && pieces[o].Run? && pieces[c].Run? && pieces[o].count > 0 && pieces[c].count > 0
    ensures var after := Pair(pieces, o, c);
            after[c].closes[|after[c].closes| - 1] == Em ==> after[o].count == 0 || after[c].count == 0
  {
  }

  lemma {:induction false} OneEmPerCloser(pieces: seq<Piece>, stack: seq<nat>, c: nat, floor: nat, o: nat)
    requires Ready(pieces, stack, c) && o < c
    ensures EmCount(Links(pieces, stack, c, floor), o, c) <= 1
    decreases pieces[c].count
  {
    StackInRange(pieces, stack, c);
    hide StackOk, FindOpener, Pair;
    if pieces[c].count > 0 && FindOpener(pieces, stack, KeyOf(pieces[c]), |stack|, floor).Some? {
      var found := FindOpener(pieces, stack, KeyOf(pieces[c]), |stack|, floor).value;
      CloseUnfolds(pieces, stack, c, floor, found);
      PairLightens(pieces, stack[found], c);
      var after := Pair(pieces, stack[found], c);
      var rest := Cut(after, stack, found);
      EmUsesUp(pieces, stack[found], c);
      if stack[found] == o && after[c].closes[|after[c].closes| - 1] == Em {
        if after[o].count == 0 {
          EmptyOpensNothing(after, rest, c, floor, o);
        } else {
          assert Links(after, rest, c, floor) == [];
        }
      } else {
        OneEmPerCloser(after, rest, c, floor, o);
      }
    }
  }

  lemma {:induction false} OtherClosers(pieces: seq<Piece>, stack: seq<nat>, c: nat, floor: nat, o: nat, d: nat)
    requires Ready(pieces, stack, c) && d != c
    ensures EmCount(Links(pieces, stack, c, floor), o, d) == 0
    decreases pieces[c].count
  {
    StackInRange(pieces, stack, c);
    hide StackOk, FindOpener, Pair;
    if pieces[c].count > 0 && FindOpener(pieces, stack, KeyOf(pieces[c]), |stack|, floor).Some? {
      var found := FindOpener(pieces, stack, KeyOf(pieces[c]), |stack|, floor).value;
      CloseUnfolds(pieces, stack, c, floor, found);
      PairLightens(pieces, stack[found], c);
      OtherClosers(Pair(pieces, stack[found], c), Cut(Pair(pieces, stack[found], c), stack, found), c, floor, o, d);
    }
  }

  lemma {:induction false} LinksAtEm(p: Pass, c: nat, o: nat, d: nat)
    requires c < |p.pieces| && StackOk(p.pieces, p.stack, c) && o < d
    ensures EmCount(LinksAt(p, c), o, d) <= if c == d then 1 else 0
  {
    hide Links, StackOk;
    if p.pieces[c].Run? && p.pieces[c].canClose {
      var floor := FloorOf(p.bottom, KeyOf(p.pieces[c]));
      if c == d {
        OneEmPerCloser(p.pieces, p.stack, c, floor, o);
      } else {
        OtherClosers(p.pieces, p.stack, c, floor, o, d);
      }
    }
  }

  lemma {:induction false} LinksFromEm(p: Pass, c: nat, o: nat, d: nat)
    requires c <= |p.pieces| && StackOk(p.pieces, p.stack, c) && o < d
    ensures EmCount(LinksFrom(p, c), o, d) <= if c <= d then 1 else 0
    decreases |p.pieces| - c
  {
    hide Turn, LinksAt, StackOk;
    if c < |p.pieces| {
      TurnKeepsStack(p, c);
      LinksAtEm(p, c, o, d);
      LinksFromEm(Turn(p, c), c + 1, o, d);
      EmCountAppend(LinksAt(p, c), LinksFrom(Turn(p, c), c + 1), o, d);
    }
  }

  /** For every paragraph, one opener and one closer share at most one plain emphasis:
      all other pairs between them are strong. */
  lemma {:induction false} OneEmPerPair(pieces: seq<Piece>, o: nat, c: nat)
    requires o < c
    ensures EmCount(AllLinks(pieces), o, c) <= 1
  {
    NobodyOpens(pieces);
    LinksFromEm(Pass(pieces, [], map[]), 0, o, c);
  }

  // ---- a text between two equal runs -------------------------------------

  function Strongs(n: nat): seq<Kind> {
    seq(n, _ => Strong)
  }

  /** What `m` delimiters on each side become: strong pairs, and one plain pair outside
      them when `m` is odd. */
  function OpeningTags(m: nat): seq<Kind> {
    (if m % 2 == 1 then [Em] else []) + Strongs(m / 2)
  }

  function ClosingTags(m: nat): seq<Kind> {
    Strongs(m / 2) + if m % 2 == 1 then [Em] else []
  }

  function Between(ch: char, orig: nat, m: nat, html: string, opens: seq<Kind>, closes: seq<Kind>): seq<Piece> {
    [Run(ch, m, orig, true, false, opens, []), Text(html), Run(ch, m, orig, false, true, [], closes)]
  }

  lemma {:induction false} TagsSplit(m: nat)
    requires m > 0
    ensures var used, kind := if m >= 2 then 2 else 1, if m >= 2 then Strong else Em;
            OpeningTags(m) == OpeningTags(m - used) + [kind] && ClosingTags(m) == [kind] + ClosingTags(m - used)
  {
  }

  lemma {:induction false} FindBetween(ch: char, orig: nat, m: nat, html: string, opens: seq<Kind>, closes: seq<Kind>)
    requires m > 0
    ensures var pieces := Between(ch, orig, m, html, opens, closes);
            Ready(pieces, [0], 2) && pieces[2].count == m &&
              FindOpener(pieces, [0], KeyOf(pieces[2]), |[0]|, 0) == Some(0)
  {
    var pieces := Between(ch, orig, m, html, opens, closes);
    assert Compatible(pieces[0], KeyOf(pieces[2]));
  }

  /** One pair between them. */
  lemma {:induction false} PairBetween(ch: char, orig: nat, m: nat, html: string, opens: seq<Kind>, closes: seq<Kind>)
    requires m > 0
    ensures var used, kind := if m >= 2 then 2 else 1, if m >= 2 then Strong else Em;
            var after := Pair(Between(ch, orig, m, html, opens, closes), 0, 2);
            && after == Between(ch, orig, m - used, html, [kind] + opens, closes + [kind])
            && Cut(after, [0], 0) == if m == used then [] else [0]
  {
  }

  lemma {:induction false} CloseBetween(ch: char, orig: nat, m: nat, html: string, opens: seq<Kind>, closes: seq<Kind>)
    requires m > 0
    ensures Ready(Between(ch, orig, m, html, opens, closes), [0], 2)
    ensures Close(Between(ch, orig, m, html, opens, closes), [0], 2, 0) ==
            (Between(ch, orig, 0, html, OpeningTags(m) + opens, closes + ClosingTags(m)), [])
    decreases m
  {
    hide Close, FindOpener, Pair, Cut, OpeningTags, ClosingTags, Between, StackOk;
    FindBetween(ch, orig, m, html, opens, closes);
    CloseUnfolds(Between(ch, orig, m, html, opens, closes), [0], 2, 0, 0);
    PairBetween(ch, orig, m, html, opens, closes);
    var used, kind := if m >= 2 then 2 else 1, if m >= 2 then Strong else Em;
    TagsJoin(m, opens, closes);
    if m == used {
      NothingBetween(ch, orig, html, [kind] + opens, closes + [kind]);
    } else {
      CloseBetween(ch, orig, m - used, html, [kind] + opens, closes + [kind]);
    }
  }

  lemma {:induction false} TagsJoin(m: nat, opens: seq<Kind>, closes: seq<Kind>)
    requires m > 0
    ensures var used, kind := if m >= 2 then 2 else 1, if m >= 2 then Strong else Em;
            && OpeningTags(m - used) + ([kind] + opens) == OpeningTags(m) + opens
            && closes + [kind] + ClosingTags(m - used) == closes + ClosingTags(m)
  {
    hide OpeningTags, ClosingTags;
    TagsSplit(m);
  }

  lemma {:induction false} NothingBetween(ch: char, orig: nat, html: string, opens: seq<Kind>, closes: seq<Kind>)
    ensures var pieces := Between(ch, orig, 0, html, opens, closes);
            Ready(pieces, [], 2) && Close(pieces, [], 2, 0) == (pieces, [])
    ensures OpeningTags(0) + opens == opens && closes + ClosingTags(0) == closes
  {
    NoTags();
  }

  lemma {:induction false} NoTags()
    ensures OpeningTags(0) == [] && ClosingTags(0) == []
  {
  }

  /** A text between an opening and a closing run of `n` of the same character comes out
      with n / 2 strong pairs, one plain pair outside them when `n` is odd, and no
      delimiters left. */
  lemma {:induction false} EqualRuns(ch: char, n: nat, html: string)
    requires n > 0
    ensures Resolve(Between(ch, n, n, html, [], [])) ==
            Between(ch, n, 0, html, (if n % 2 == 1 then [Em] else []) + seq(n / 2, _ => Strong),
                    seq(n / 2, _ => Strong) + if n % 2 == 1 then [Em] else [])
  {
    var pieces := Between(ch, n, n, html, [], []);
    var p := Pass(pieces, [], map[]);
    NobodyOpens(pieces);
    FromTurns(p, 0);
    var q := Turn(p, 0);
    assert q == Pass(pieces, [0], map[]);
    FromTurns(q, 1);
    assert Turn(q, 1) == q;
    FromTurns(q, 2);
    CloseBetween(ch, n, n, html, [], []);
    hide Close, From, StackOk;
    var done := Between(ch, n, 0, html, OpeningTags(n) + [], [] + ClosingTags(n));
    assert Turn(q, 2).pieces == done;
    FromEnds(Turn(q, 2));
    assert OpeningTags(n) + [] == OpeningTags(n) && [] + ClosingTags(n) == ClosingTags(n);
  }
}
