/** `normalize_unlimited_ocr` (src/mapping/deepseek.cpp): detection annotations
    `<|det|> label [d,d,d,d]<|/det|>` rewritten to the reference form. */
module Normalize {
  import opened Common

  const OPEN: string := "<|det|>"
  const CLOSE: string := "<|/det|>"

  datatype Class = Space | Label | Digit

  predicate In(ch: char, class_: Class) {
    match class_
    case Space => ch == ' ' || 9 <= ch as int <= 13
    case Label => 'a' <= ch <= 'z' || ch == '_'
    case Digit => '0' <= ch <= '9'
  }

  /** The end of the run of a class from `i` on. */
  function Run(s: string, i: nat, class_: Class): (j: nat)
    requires i <= |s|
    ensures i <= j <= |s| && (forall k :: i <= k < j ==> In(s[k], class_)) && (j < |s| ==> !In(s[j], class_))
    decreases |s| - i
  {
    if i < |s| && In(s[i], class_) then Run(s, i + 1, class_) else i
  }

  predicate At(s: string, i: nat, word: string) {
    i + |word| <= |s| && s[i..i + |word|] == word
  }

  /** A comma with blanks around it and a number behind it. */
  function Comma(s: string, i: nat): (end: Option<nat>)
    requires i <= |s|
    ensures end.Some? ==> i < end.value <= |s|
  {
    var p := Run(s, i, Space);
    if p == |s| || s[p] != ',' then None
    else
      var q := Run(s, p + 1, Space);
      var r := Run(s, q, Digit);
      if r > q then Some(r) else None
  }

  /** The four numbers, from behind the bracket. */
  function Box(s: string, i: nat): (end: Option<nat>)
    requires i <= |s|
    ensures end.Some? ==> i < end.value <= |s|
  {
    var d := Run(s, i, Digit);
    if d == i then None
    else
      match Comma(s, d)
      case None => None
      case Some(x) =>
        match Comma(s, x)
        case None => None
        case Some(y) => Comma(s, y)
  }

  /** A match at the start of a text: where its label and its box lie. */
  datatype Match = Match(labelStart: nat, labelEnd: nat, boxStart: nat, boxEnd: nat)

  function Length(m: Match): nat {
    m.boxEnd + 1 + |CLOSE|
  }

  function Parse(s: string): (r: Option<Match>)
    ensures r.Some? ==>
              var m := r.value;
              At(s, 0, OPEN) && |OPEN| <= m.labelStart < m.labelEnd < m.boxStart < m.boxEnd && Length(m) <= |s|
  {
    if !At(s, 0, OPEN) then None
    else
      var a := Run(s, |OPEN|, Space);
      var b := Run(s, a, Label);
      var c := Run(s, b, Space);
      if b == a || c == |s| || s[c] != '[' then None
      else
        match Box(s, c + 1)
        case None => None
        case Some(e) => if e < |s| && s[e] == ']' && At(s, e + 1, CLOSE) then Some(Match(a, b, c + 1, e)) else None
  }

  function Rewritten(s: string, m: Match): string
    requires m.labelStart <= m.labelEnd <= |s| && m.boxStart <= m.boxEnd <= |s|
  {
    "<|ref|>" + s[m.labelStart..m.labelEnd] + "<|/ref|><|det|>[[" + s[m.boxStart..m.boxEnd] + "]]<|/det|>\n"
  }

  /** Every annotation rewritten where it stands, everything else copied. */
  function Norm(s: string): string
    decreases |s|
  {
    if s == "" then ""
    else
      match Parse(s)
      case None => [s[0]] + Norm(s[1..])
      case Some(m) => Rewritten(s, m) + Norm(s[Length(m)..])
  }

  // ---- the loop ----------------------------------------------------------

  /** The first opener, or the length of the text. */
  function FindOpen(s: string): (n: nat)
    ensures n <= |s| && (n < |s| ==> At(s, n, OPEN)) && forall i :: 0 <= i < n ==> !At(s, i, OPEN)
  {
    if s == "" || At(s, 0, OPEN) then 0
    else
      assert forall i :: 1 <= i <= |s| ==> (At(s, i, OPEN) <==> At(s[1..], i - 1, OPEN)) by { OpenShifts(s); }
      1 + FindOpen(s[1..])
  }

  lemma {:induction false} OpenShifts(s: string)
    requires s != ""
    ensures forall i :: 1 <= i <= |s| ==> (At(s, i, OPEN) <==> At(s[1..], i - 1, OPEN))
  {
    hide At;
    forall i | 1 <= i <= |s| ensures At(s, i, OPEN) <==> At(s[1..], i - 1, OPEN) {
      AtShifts(s, i, OPEN);
    }
  }

  lemma {:induction false} AtShifts(s: string, i: nat, word: string)
    requires 1 <= i <= |s|
    ensures At(s, i, word) <==> At(s[1..], i - 1, word)
  {
    if i + |word| <= |s| {
      assert s[1..][i - 1..i - 1 + |word|] == s[i..i + |word|];
    }
  }

  method Skip(s: string, i: nat, class_: Class) returns (j: nat)
    requires i <= |s|
    ensures j == Run(s, i, class_)
  {
    j := i;
    while j < |s| && In(s[j], class_)
      invariant i <= j <= |s| && Run(s, i, class_) == Run(s, j, class_)
    {
      j := j + 1;
    }
  }

  /** The scanning steps behind an opener, as the source takes them. */
  method ReadAnnotation(s: string) returns (r: Option<Match>)
    requires At(s, 0, OPEN)
    ensures r == Parse(s)
  {
    hide Run, In, Box, At, OPEN, CLOSE;
    FrontLength(s);
    var labelStart := Skip(s, |OPEN|, Space);
    var labelEnd := Skip(s, labelStart, Label);
    var i := Skip(s, labelEnd, Space);
    if labelEnd == labelStart || i == |s| || s[i] != '[' {
      return None;
    }
    var boxStart := i + 1;
    var end := ReadBox(s, boxStart);
    if end.None? || end.value == |s| || s[end.value] != ']' || !At(s, end.value + 1, CLOSE) {
      return None;
    }
    r := Some(Match(labelStart, labelEnd, boxStart, end.value));
  }

  method ReadBox(s: string, i: nat) returns (end: Option<nat>)
    requires i <= |s|
    ensures end == Box(s, i)
  {
    hide Run, In, Comma;
    var d := Skip(s, i, Digit);
    if d == i {
      return None;
    }
    end := ReadComma(s, d);
    if end.None? {
      return None;
    }
    end := ReadComma(s, end.value);
    if end.None? {
      return None;
    }
    end := ReadComma(s, end.value);
  }

  method ReadComma(s: string, i: nat) returns (end: Option<nat>)
    requires i <= |s|
    ensures end == Comma(s, i)
  {
    var p := Skip(s, i, Space);
    if p == |s| || s[p] != ',' {
      return None;
    }
    var q := Skip(s, p + 1, Space);
    var r := Skip(s, q, Digit);
    end := if r > q then Some(r) else None;
  }

  lemma {:induction false} CopiedUntilOpen(s: string, n: nat)
    requires n <= |s| && forall i :: 0 <= i < n ==> !At(s, i, OPEN)
    ensures Norm(s) == s[..n] + Norm(s[n..])
    decreases n
  {
    hide Parse, At, Norm;
    if n == 0 {
      assert s[0..] == s;
    } else {
      forall i | 0 <= i < n - 1 ensures !At(s[1..], i, OPEN) {
        AtShifts(s, i + 1, OPEN);
      }
      CopiedUntilOpen(s[1..], n - 1);
      NoMatchWithoutOpen(s);
      NormCopies(s);
      assert s[..n] == [s[0]] + s[1..][..n - 1] && s[1..][n - 1..] == s[n..];
    }
  }

  lemma {:induction false} NormCopies(s: string)
    requires s != "" && Parse(s).None?
    ensures Norm(s) == [s[0]] + Norm(s[1..])
  {
    hide Parse;
  }

  lemma {:induction false} NoMatchWithoutOpen(s: string)
    requires !At(s, 0, OPEN)
    ensures Parse(s).None?
  {
  }

  lemma {:induction false} OpenOnlyInFront(s: string)
    requires At(s, 0, OPEN)
    ensures forall i :: 1 <= i < |OPEN| ==> !At(s, i, OPEN)
  {
    forall i | 1 <= i < |OPEN| ensures !At(s, i, OPEN) {
      if i + |OPEN| <= |s| {
        assert s[..|OPEN|][i] == s[i] == OPEN[i] != '<';
        assert s[i..i + |OPEN|][0] == s[i] && OPEN[0] == '<';
      }
    }
  }

  /** A rejected opener is copied whole. */
  lemma {:induction false} RejectedIsCopied(s: string)
    requires At(s, 0, OPEN) && Parse(s).None?
    ensures Norm(s) == OPEN + Norm(s[|OPEN|..])
  {
    hide Parse, At, Norm, OPEN;
    OpenOnlyInFront(s);
    FrontLength(s);
    NormCopies(s);
    var n := |OPEN|;
    forall i | 0 <= i < n - 1 ensures !At(s[1..], i, OPEN) {
      AtShifts(s, i + 1, OPEN);
    }
    CopiedUntilOpen(s[1..], n - 1);
    SplitFront(s, n);
  }

  lemma {:induction false} SplitFront(s: string, n: nat)
    requires 1 <= n <= |s|
    ensures s[..n] == [s[0]] + s[1..][..n - 1] && s[1..][n - 1..] == s[n..]
  {
  }

  /** The rewriting loop. */
  method NormalizeUnlimitedOcr(content: string) returns (out: string)
    ensures out == Norm(content)
  {
    hide Parse, FindOpen, Norm, At, Rewritten;
    out := "";
    var pos := 0;
    assert content[0..] == content;
    while pos < |content|
      invariant pos <= |content| && out + Norm(content[pos..]) == Norm(content)
    {
      var rest := content[pos..];
      var at := FindOpen(rest);
      CopiedUntilOpen(rest, at);
      if at == |rest| {
        NormNothing();
        assert rest[..at] == rest && rest[at..] == "";
        return out + rest;
      }
      out := out + rest[..at];
      var from := rest[at..];
      assert from == content[pos + at..];
      OpensFront(rest, at);
      var m := ReadAnnotation(from);
      if m.None? {
        RejectedIsCopied(from);
        FrontLength(from);
        out := out + OPEN;
        pos := pos + at + |OPEN|;
        assert from[|OPEN|..] == content[pos..];
      } else {
        MatchIsRewritten(from);
        out := out + Rewritten(from, m.value);
        assert from[Length(m.value)..] == content[pos + at + Length(m.value)..];
        pos := pos + at + Length(m.value);
      }
    }
    NormNothing();
    assert content[pos..] == "";
  }

  lemma {:induction false} NormNothing()
    ensures Norm("") == ""
  {
  }

  lemma {:induction false} OpensFront(s: string, n: nat)
    requires At(s, n, OPEN)
    ensures n <= |s| && At(s[n..], 0, OPEN)
  {
    assert s[n..][0..|OPEN|] == s[n..n + |OPEN|];
  }

  lemma {:induction false} FrontLength(s: string)
    requires At(s, 0, OPEN)
    ensures 1 <= |OPEN| <= |s| && s[..|OPEN|] == OPEN
  {
    assert s[0..|OPEN|] == s[..|OPEN|];
  }

  lemma {:induction false} MatchIsRewritten(s: string)
    requires Parse(s).Some?
    ensures var m := Parse(s).value; Length(m) <= |s| && Norm(s) == Rewritten(s, m) + Norm(s[Length(m)..])
  {
    hide Parse;
  }

  // ---- a match depends on nothing behind it ------------------------------

  ghost predicate Agree(s: string, t: string, n: nat) {
    n <= |s| && n <= |t| && forall k :: 0 <= k < n ==> s[k] == t[k]
  }

  lemma {:induction false} RunAgrees(s: string, t: string, n: nat, i: nat, class_: Class)
    requires Agree(s, t, n) && i <= |t| && i <= |s| && Run(t, i, class_) < n
    ensures Run(s, i, class_) == Run(t, i, class_)
  {
    hide In;
    var x, y := Run(s, i, class_), Run(t, i, class_);
    assert y < |t| && !In(t[y], class_);
    assert !(x < y) && !(x > y);
  }

  lemma {:induction false} CommaAgrees(s: string, t: string, n: nat, i: nat)
    requires Agree(s, t, n) && i <= |t| && i <= |s| && Comma(t, i).Some? && Comma(t, i).value < n
    ensures Comma(s, i) == Comma(t, i)
  {
    hide In, Run;
    var p := Run(t, i, Space);
    RunAgrees(s, t, n, i, Space);
    var q := Run(t, p + 1, Space);
    RunAgrees(s, t, n, p + 1, Space);
    RunAgrees(s, t, n, q, Digit);
  }

  lemma {:induction false} BoxAgrees(s: string, t: string, n: nat, i: nat)
    requires Agree(s, t, n) && i <= |t| && i <= |s| && Box(t, i).Some? && Box(t, i).value < n
    ensures Box(s, i) == Box(t, i)
  {
    hide In, Run, Comma;
    RunAgrees(s, t, n, i, Digit);
    var d := Run(t, i, Digit);
    var x := Comma(t, d).value;
    CommaAgrees(s, t, n, d);
    var y := Comma(t, x).value;
    CommaAgrees(s, t, n, x);
    CommaAgrees(s, t, n, y);
  }

  lemma {:induction false} AtAgrees(s: string, t: string, n: nat, i: nat, word: string)
    requires Agree(s, t, n) && At(t, i, word) && i + |word| <= n
    ensures At(s, i, word)
  {
    assert s[i..i + |word|] == t[i..i + |word|];
  }

  /** The parts of a match. */
  ghost predicate Matches(s: string, m: Match) {
    && At(s, 0, OPEN) && |OPEN| <= m.labelStart < m.labelEnd < m.boxStart < m.boxEnd < |s|
    && Run(s, |OPEN|, Space) == m.labelStart && Run(s, m.labelStart, Label) == m.labelEnd
    && Run(s, m.labelEnd, Space) == m.boxStart - 1 && s[m.boxStart - 1] == '['
    && Box(s, m.boxStart) == Some(m.boxEnd) && s[m.boxEnd] == ']' && At(s, m.boxEnd + 1, CLOSE)
  }

  lemma {:induction false} ParseMatches(s: string, m: Match)
    ensures Parse(s) == Some(m) <==> Matches(s, m)
  {
    hide In, Run, Box, At;
  }

  lemma {:induction false} MatchesAgree(s: string, t: string, m: Match)
    requires Matches(t, m) && Agree(s, t, Length(m))
    ensures Matches(s, m)
  {
    hide In, Run, Box, At;
    var n := Length(m);
    AtAgrees(s, t, n, 0, OPEN);
    RunAgrees(s, t, n, |OPEN|, Space);
    RunAgrees(s, t, n, m.labelStart, Label);
    RunAgrees(s, t, n, m.labelEnd, Space);
    BoxAgrees(s, t, n, m.boxStart);
    AtAgrees(s, t, n, m.boxEnd + 1, CLOSE);
  }

  lemma {:induction false} ParseAgrees(s: string, t: string)
    requires Parse(t).Some? && Agree(s, t, Length(Parse(t).value))
    ensures Parse(s) == Parse(t)
  {
    hide Parse, Matches, Agree;
    var m := Parse(t).value;
    ParseMatches(t, m);
    MatchesAgree(s, t, m);
    ParseMatches(s, m);
  }

  // ---- no '<' inside a match ---------------------------------------------

  ghost predicate Clear(s: string, i: nat, j: nat) {
    j <= |s| && forall k :: i <= k < j ==> s[k] != '<'
  }

  lemma {:induction false} RunClear(s: string, i: nat, class_: Class)
    requires i <= |s|
    ensures Clear(s, i, Run(s, i, class_))
  {
  }

  lemma {:induction false} CommaClear(s: string, i: nat)
    requires i <= |s| && Comma(s, i).Some?
    ensures Clear(s, i, Comma(s, i).value)
  {
    hide Run;
    var p := Run(s, i, Space);
    RunClear(s, i, Space);
    RunClear(s, p + 1, Space);
    RunClear(s, Run(s, p + 1, Space), Digit);
  }

  lemma {:induction false} BoxClear(s: string, i: nat)
    requires i <= |s| && Box(s, i).Some?
    ensures Clear(s, i, Box(s, i).value)
  {
    hide Run, Comma;
    RunClear(s, i, Digit);
    var d := Run(s, i, Digit);
    CommaClear(s, d);
    var x := Comma(s, d).value;
    CommaClear(s, x);
    CommaClear(s, Comma(s, x).value);
  }

  lemma {:induction false} OpenClear(s: string)
    requires At(s, 0, OPEN)
    ensures Clear(s, 1, |OPEN|)
  {
    forall k | 1 <= k < |OPEN| ensures s[k] != '<' {
      assert s[0..|OPEN|][k] == OPEN[k];
    }
  }

  lemma {:induction false} MatchClear(s: string, m: Match)
    requires Parse(s) == Some(m)
    ensures Clear(s, 1, m.boxEnd + 1)
  {
    hide Parse, Run, Box, In, At;
    ParseMatches(s, m);
    OpenClear(s);
    RunClear(s, |OPEN|, Space);
    RunClear(s, m.labelStart, Label);
    RunClear(s, m.labelEnd, Space);
    BoxClear(s, m.boxStart);
  }

  // ---- rewriting accepts nothing new -------------------------------------

  /** Where the result does not show a '<', the source was copied. */
  lemma {:induction false} ClearIsCopied(x: string, n: nat)
    requires Clear(Norm(x), 0, n)
    ensures n <= |x| && x[..n] == Norm(x)[..n] && Norm(x)[n..] == Norm(x[n..])
    decreases n
  {
    hide Parse, Norm;
    var y := Norm(x);
    if n == 0 {
      assert x[0..] == x;
    } else {
      NormNothing();
      RewriteShows(x);
      assert x != "" && y[0] != '<';
      NormCopies(x);
      assert y[1..] == Norm(x[1..]);
      ClearIsCopied(x[1..], n - 1);
      SplitFront(x, n);
      SplitFront(y, n);
    }
  }

  /** A rewritten annotation starts with a reference marker. */
  lemma {:induction false} RewriteShows(x: string)
    ensures Parse(x).Some? ==> |Norm(x)| > 2 && Norm(x)[0] == '<' && Norm(x)[2] == 'r'
  {
    hide Parse;
    if Parse(x).Some? {
      MatchIsRewritten(x);
      var m := Parse(x).value;
      assert Rewritten(x, m)[..7] == "<|ref|>";
      assert Norm(x)[0] == Rewritten(x, m)[..7][0] && Norm(x)[2] == Rewritten(x, m)[..7][2];
    }
  }

  /** A closing marker in the result was one in the source. */
  lemma {:induction false} CloseIsCopied(y: string)
    requires At(Norm(y), 0, CLOSE)
    ensures At(y, 0, CLOSE)
  {
    hide Parse;
    NormNothing();
    RewriteShows(y);
    var t := Norm(y);
    assert t[0..|CLOSE|][0] == '<' && t[0..|CLOSE|][2] == '/';
    assert t == [y[0]] + Norm(y[1..]) && t[1..] == Norm(y[1..]);
    forall k | 0 <= k < |CLOSE| - 1 ensures Norm(y[1..])[k] == CLOSE[k + 1] {
      assert t[0..|CLOSE|][k + 1] == t[k + 1];
    }
    ClearIsCopied(y[1..], |CLOSE| - 1);
    forall k | 0 <= k < |CLOSE| ensures k < |y| && y[k] == CLOSE[k] {
      if k > 0 {
        assert y[1..][..|CLOSE| - 1][k - 1] == y[k];
        assert Norm(y[1..])[..|CLOSE| - 1][k - 1] == CLOSE[k];
      }
    }
    assert y[0..|CLOSE|] == CLOSE;
  }

  lemma {:induction false} ClearTail(t: string, c: char, y: string, e: nat)
    requires t == [c] + y && Clear(t, 1, e + 1)
    ensures Clear(y, 0, e)
  {
    forall k | 0 <= k < e ensures y[k] != '<' {
      assert y[k] == t[k + 1];
    }
  }

  lemma {:induction false} AcceptedWasAccepted(s: string, t: string, m: Match)
    requires s != "" && t == [s[0]] + Norm(s[1..]) && Parse(t) == Some(m)
    ensures Parse(s) == Some(m)
  {
    hide Parse, Norm, At, Clear, Agree;
    var x, e := s[1..], m.boxEnd;
    MatchClear(t, m);
    MatchCloses(t, m);
    ClearTail(t, s[0], Norm(x), e);
    ClearLength(Norm(x), e);
    ClearIsCopied(x, e);
    assert t[1..] == Norm(x);
    CloseMoves(t, x, e);
    CloseIsCopied(x[e..]);
    CopiedMatch(s, t, x, e);
    ParseAgrees(s, t);
  }

  lemma {:induction false} ClearLength(s: string, n: nat)
    requires Clear(s, 0, n)
    ensures n <= |s|
  {
  }

  /** Rewriting what follows never turns a rejected annotation into an accepted one. */
  lemma {:induction false} RejectedStaysRejected(s: string)
    requires s != "" && Parse(s).None?
    ensures Parse([s[0]] + Norm(s[1..])).None?
  {
    hide Parse, Norm;
    var t := [s[0]] + Norm(s[1..]);
    if Parse(t).Some? {
      AcceptedWasAccepted(s, t, Parse(t).value);
    }
  }

  lemma {:induction false} MatchCloses(s: string, m: Match)
    requires Parse(s) == Some(m)
    ensures At(s, m.boxEnd + 1, CLOSE)
  {
    hide Parse, Run, Box, In, At, OPEN, CLOSE;
    ParseMatches(s, m);
  }

  lemma {:induction false} CloseMoves(t: string, x: string, e: nat)
    requires t != "" && t[1..] == Norm(x) && At(t, e + 1, CLOSE) && e <= |x| && e <= |Norm(x)| &&
             Norm(x)[e..] == Norm(x[e..])
    ensures At(Norm(x[e..]), 0, CLOSE)
  {
    hide Norm;
    assert Norm(x)[e..][0..|CLOSE|] == t[e + 1..e + 1 + |CLOSE|];
  }

  lemma {:induction false} CopiedMatch(s: string, t: string, x: string, e: nat)
    requires s != "" && x == s[1..] && t == [s[0]] + Norm(x) && e <= |x| && e <= |Norm(x)| && x[..e] == Norm(x)[..e]
    requires At(t, e + 1, CLOSE) && At(x[e..], 0, CLOSE)
    ensures Agree(s, t, e + 1 + |CLOSE|)
  {
    hide Norm;
    assert s == [s[0]] + x;
    forall k | 0 <= k < e + 1 + |CLOSE| ensures k < |s| && k < |t| && s[k] == t[k] {
      if 0 < k <= e {
        assert x[..e][k - 1] == Norm(x)[..e][k - 1];
      } else if k > e {
        assert x[e..][0..|CLOSE|][k - e - 1] == s[k];
        assert t[e + 1..e + 1 + |CLOSE|][k - e - 1] == t[k];
      }
    }
  }

  // ---- rewritten annotations never match again ---------------------------

  /** Every '<' is followed, inside the text, by something no opener holds there. */
  ghost predicate Quiet(w: string) {
    forall i :: 0 <= i < |w| && w[i] == '<' ==> i + 2 < |w| && w[i + 2] != 'd'
  }

  lemma {:induction false} QuietAppends(u: string, v: string)
    requires Quiet(u) && Quiet(v)
    ensures Quiet(u + v)
  {
    var w := u + v;
    forall i | 0 <= i < |w| && w[i] == '<' ensures i + 2 < |w| && w[i + 2] != 'd' {
      if i < |u| {
        assert u[i] == '<' && w[i + 2] == u[i + 2];
      } else {
        assert v[i - |u|] == '<' && w[i + 2] == v[i - |u| + 2];
      }
    }
  }

  lemma {:induction false} QuietIsCopied(w: string, z: string)
    requires Quiet(w)
    ensures Norm(w + z) == w + Norm(z)
  {
    var s := w + z;
    forall i | 0 <= i < |w| ensures !At(s, i, OPEN) {
      if i + |OPEN| <= |s| {
        assert s[i..i + |OPEN|][0] == s[i] == w[i] && OPEN[0] == '<';
        assert s[i..i + |OPEN|][2] == s[i + 2] && OPEN[2] == 'd';
        assert i + 2 < |w| ==> s[i + 2] == w[i + 2];
      }
    }
    hide Norm;
    CopiedUntilOpen(s, |w|);
    assert s[..|w|] == w && s[|w|..] == z;
  }

  lemma {:induction false} PieceIsQuiet(s: string, m: Match)
    requires Parse(s) == Some(m)
    ensures Quiet(s[m.labelStart..m.labelEnd]) && Quiet(s[m.boxStart..m.boxEnd])
  {
    hide Parse;
    MatchClear(s, m);
  }

  lemma {:induction false} NoLabelNoMatch(q: string)
    requires q != "" && q[0] == '['
    ensures At(OPEN + q, 0, OPEN) && Parse(OPEN + q).None?
  {
    var s := OPEN + q;
    assert s[0..|OPEN|] == OPEN;
    assert s[|OPEN|] == '[' && !In('[', Space) && !In('[', Label);
    assert Run(s, |OPEN|, Space) == |OPEN|;
    assert Run(s, |OPEN|, Label) == |OPEN|;
  }

  lemma {:induction false} OpenerIsCopied(q: string)
    requires q != "" && q[0] == '['
    ensures Norm(OPEN + q) == OPEN + Norm(q)
  {
    hide Norm, At, Parse;
    NoLabelNoMatch(q);
    RejectedIsCopied(OPEN + q);
    assert (OPEN + q)[|OPEN|..] == q;
  }

  /** The rewritten form in three parts: up to its opener, the opener, the rest. */
  lemma {:induction false} RewrittenParts(s: string, m: Match)
    requires Parse(s) == Some(m)
    ensures var name, box := s[m.labelStart..m.labelEnd], s[m.boxStart..m.boxEnd];
            Rewritten(s, m) == ("<|ref|>" + name + "<|/ref|>") + OPEN + ("[[" + box + "]]<|/det|>\n")
  {
    hide Parse;
    var name, box := s[m.labelStart..m.labelEnd], s[m.boxStart..m.boxEnd];
    assert "<|/ref|><|det|>[[" == "<|/ref|>" + OPEN + "[[";
  }

  lemma {:induction false} RewrittenStays(s: string, m: Match, z: string)
    requires Parse(s) == Some(m)
    ensures Norm(Rewritten(s, m) + z) == Rewritten(s, m) + Norm(z)
  {
    hide Norm, Parse, Rewritten, Quiet;
    RewrittenParts(s, m);
    PieceIsQuiet(s, m);
    var name, box := s[m.labelStart..m.labelEnd], s[m.boxStart..m.boxEnd];
    FrontIsQuiet(name);
    BackIsQuiet(box);
    ThreeParts("<|ref|>" + name + "<|/ref|>", "[[" + box + "]]<|/det|>\n", z);
  }

  lemma {:induction false} FrontIsQuiet(name: string)
    requires Quiet(name)
    ensures Quiet("<|ref|>" + name + "<|/ref|>")
  {
    assert Quiet("<|ref|>") && Quiet("<|/ref|>");
    hide Quiet;
    QuietAppends("<|ref|>", name);
    QuietAppends("<|ref|>" + name, "<|/ref|>");
  }

  lemma {:induction false} BackIsQuiet(box: string)
    requires Quiet(box)
    ensures var back := "[[" + box + "]]<|/det|>\n"; Quiet(back) && back != "" && back[0] == '['
  {
    assert Quiet("[[") && Quiet("]]<|/det|>\n");
    hide Quiet;
    QuietAppends("[[", box);
    QuietAppends("[[" + box, "]]<|/det|>\n");
  }

  lemma {:induction false} ThreeParts(front: string, back: string, z: string)
    requires Quiet(front) && Quiet(back) && back != "" && back[0] == '['
    ensures Norm(front + OPEN + back + z) == front + OPEN + back + Norm(z)
  {
    hide Norm, Quiet;
    var q := back + z;
    QuietIsCopied(front, OPEN + q);
    OpenerIsCopied(q);
    QuietIsCopied(back, z);
    assert front + OPEN + back + z == front + (OPEN + q);
    assert front + (OPEN + (back + Norm(z))) == front + OPEN + back + Norm(z);
  }

  /** Normalising twice is normalising once, on every string. */
  lemma {:induction false} Idempotent(s: string)
    ensures Norm(Norm(s)) == Norm(s)
    decreases |s|
  {
    hide Parse;
    NormNothing();
    if s != "" {
      if Parse(s).Some? {
        var m := Parse(s).value;
        MatchIsRewritten(s);
        Idempotent(s[Length(m)..]);
        RewrittenStays(s, m, Norm(s[Length(m)..]));
      } else {
        Idempotent(s[1..]);
        RejectedStaysRejected(s);
        var t := [s[0]] + Norm(s[1..]);
        assert t[1..] == Norm(s[1..]);
      }
    }
  }

  /** The fixed points are the texts in which no annotation matches anywhere. */
  lemma {:induction false} FixedPoints(s: string)
    ensures Norm(s) == s <==> forall i :: 0 <= i < |s| ==> Parse(s[i..]).None?
    decreases |s|
  {
    hide Parse;
    NormNothing();
    if s != "" {
      assert s[0..] == s;
      FixedPoints(s[1..]);
      forall i | 1 <= i < |s| ensures s[i..] == s[1..][i - 1..] {
      }
      if Parse(s).Some? {
        RewriteShows(s);
        OpenSpelled(s);
      } else {
        assert (Norm(s) == s) == (Norm(s[1..]) == s[1..]) by {
          assert s == [s[0]] + s[1..] && Norm(s)[1..] == Norm(s[1..]);
        }
        if forall i :: 0 <= i < |s[1..]| ==> Parse(s[1..][i..]).None? {
          forall i | 0 <= i < |s| ensures Parse(s[i..]).None? {
            if i > 0 {
              assert Parse(s[1..][i - 1..]).None?;
            }
          }
        }
        if forall i :: 0 <= i < |s| ==> Parse(s[i..]).None? {
          forall i | 0 <= i < |s[1..]| ensures Parse(s[1..][i..]).None? {
            assert s[i + 1..] == s[1..][i..];
          }
        }
      }
    }
  }

  lemma {:induction false} OpenSpelled(s: string)
    requires Parse(s).Some?
    ensures |s| > 2 && s[2] == 'd'
  {
    hide Run, Box;
    assert s[0..|OPEN|][2] == s[2] && OPEN[2] == 'd';
  }

  /** No annotation in the accepted form is left after normalising. */
  lemma {:induction false} NothingLeftToRewrite(s: string)
    ensures forall i :: 0 <= i < |Norm(s)| ==> Parse(Norm(s)[i..]).None?
  {
    hide Parse, Norm;
    Idempotent(s);
    FixedPoints(Norm(s));
  }

  // ---- every annotation of the documented form is rewritten ---------------

  ghost predicate All(w: string, class_: Class) {
    forall i :: 0 <= i < |w| ==> In(w[i], class_)
  }

  ghost predicate Stops(w: string, class_: Class) {
    w == "" || !In(w[0], class_)
  }

  lemma {:induction false} RunOver(s: string, a: string, w: string, b: string, class_: Class)
    requires s == a + w + b && All(w, class_) && Stops(b, class_)
    ensures Run(s, |a|, class_) == |a| + |w|
  {
    hide In;
    var j := Run(s, |a|, class_);
    assert forall k :: |a| <= k < |a| + |w| ==> s[k] == w[k - |a|];
    assert b != "" ==> s[|a| + |w|] == b[0];
    assert !(j < |a| + |w|) && !(j > |a| + |w|);
  }

  /** A comma with the blanks around it, then a number. */
  datatype Next = Next(before: string, after: string, digits: string)

  ghost predicate NextOk(n: Next) {
    All(n.before, Space) && All(n.after, Space) && All(n.digits, Digit) && n.digits != ""
  }

  function Spelled(n: Next): string {
    n.before + "," + n.after + n.digits
  }

  lemma {:induction false} DigitsStopSpace(w: string)
    requires w != "" && All(w, Digit)
    ensures Stops(w, Space)
  {
    assert In(w[0], Digit);
  }

  lemma {:induction false} CommaOver(s: string, p: string, n: Next, r: string)
    requires s == p + Spelled(n) + r && NextOk(n) && Stops(r, Digit)
    ensures Comma(s, |p|) == Some(|p + Spelled(n)|)
  {
    hide Run, All;
    var tail := "," + n.after + n.digits + r;
    assert s == p + n.before + tail && Stops(tail, Space);
    RunOver(s, p, n.before, tail, Space);
    var q := p + n.before + ",";
    assert s == q + n.after + (n.digits + r);
    assert s[|p + n.before|] == ',';
    DigitsStopSpace(n.digits);
    assert (n.digits + r)[0] == n.digits[0];
    RunOver(s, q, n.after, n.digits + r, Space);
    assert s == (q + n.after) + n.digits + r;
    RunOver(s, q + n.after, n.digits, r, Digit);
    assert p + Spelled(n) == q + n.after + n.digits;
  }

  lemma {:induction false} SpelledStopsDigits(n: Next, r: string)
    requires NextOk(n)
    ensures Stops(Spelled(n) + r, Digit)
  {
    var t := Spelled(n) + r;
    assert n.before != "" ==> t[0] == n.before[0] && In(n.before[0], Space);
    assert n.before == "" ==> t[0] == ',';
  }

  function BoxText(first: string, x: Next, y: Next, z: Next): string {
    first + Spelled(x) + Spelled(y) + Spelled(z)
  }

  lemma {:induction false} BoxOver(s: string, p: string, first: string, x: Next, y: Next, z: Next, r: string)
    requires s == p + BoxText(first, x, y, z) + r && first != "" && All(first, Digit) && NextOk(x) &&
             NextOk(y) && NextOk(z)
    requires Stops(r, Digit)
    ensures Box(s, |p|) == Some(|p + BoxText(first, x, y, z)|)
  {
    hide Run, All, NextOk, Spelled, Comma, Stops;
    var rz := Spelled(z) + r;
    var ry := Spelled(y) + rz;
    var rx := Spelled(x) + ry;
    SpelledStopsDigits(z, r);
    SpelledStopsDigits(y, rz);
    SpelledStopsDigits(x, ry);
    assert s == p + first + rx;
    RunOver(s, p, first, rx, Digit);
    var p1 := p + first;
    assert s == p1 + Spelled(x) + ry;
    CommaOver(s, p1, x, ry);
    var p2 := p1 + Spelled(x);
    assert s == p2 + Spelled(y) + rz;
    CommaOver(s, p2, y, rz);
    var p3 := p2 + Spelled(y);
    assert s == p3 + Spelled(z) + r;
    CommaOver(s, p3, z, r);
    assert p + BoxText(first, x, y, z) == p3 + Spelled(z);
  }

  /** An annotation as the source documents it, and what follows it. */
  function Annotation(blanks: string, name: string, more: string, box: string): string {
    OPEN + blanks + name + more + "[" + box + "]" + CLOSE
  }

  lemma {:induction false} LabelStopsSpace(w: string, r: string)
    requires w != "" && All(w, Label)
    ensures Stops(w + r, Space)
  {
    assert In(w[0], Label);
  }

  lemma {:induction false} BlanksStopLabel(w: string, r: string)
    requires All(w, Space) && r != "" && r[0] == '['
    ensures Stops(w + r, Label) && Stops(r, Space)
  {
    assert w != "" ==> In(w[0], Space);
    assert w == "" ==> (w + r)[0] == '[';
  }

  lemma {:induction false} DocumentedFormMatches(blanks: string, name: string, more: string, first: string, x: Next,
      y: Next, z: Next, rest: string)
    requires All(blanks, Space) && name != "" && All(name, Label) && All(more, Space)
    requires first != "" && All(first, Digit) && NextOk(x) && NextOk(y) && NextOk(z)
    ensures var box := BoxText(first, x, y, z);
            var a := |OPEN| + |blanks|;
            var d := a + |name| + |more| + 1;
            Matches(Annotation(blanks, name, more, box) + rest, Match(a, a + |name|, d, d + |box|))
  {
    hide Run, All, NextOk, Spelled, Box, Stops, BoxText, CLOSE;
    var box := BoxText(first, x, y, z);
    var s := Annotation(blanks, name, more, box) + rest;
    var end := "]" + CLOSE + rest;
    var tail := "[" + box + end;
    BlanksStopLabel(more, tail);
    LabelStopsSpace(name, more + tail);
    var p1 := OPEN + blanks;
    assert s == OPEN + blanks + (name + (more + tail));
    RunOver(s, OPEN, blanks, name + (more + tail), Space);
    assert s == p1 + name + (more + tail);
    RunOver(s, p1, name, more + tail, Label);
    var p2 := p1 + name;
    assert s == p2 + more + tail;
    RunOver(s, p2, more, tail, Space);
    var p3 := p2 + more + "[";
    assert s == p3 + box + end;
    BracketStopsDigits(CLOSE + rest);
    assert end == "]" + (CLOSE + rest);
    BoxOver(s, p3, first, x, y, z, end);
    BoxNotEmpty(first, x, y, z);
    assert s[..|OPEN|] == OPEN && s[|p2 + more|] == '[' && s[|p3 + box|] == ']';
    assert s[|p3 + box| + 1..|p3 + box| + 1 + |CLOSE|] == CLOSE;
  }

  lemma {:induction false} BracketStopsDigits(r: string)
    ensures Stops("]" + r, Digit)
  {
  }

  lemma {:induction false} BoxNotEmpty(first: string, x: Next, y: Next, z: Next)
    requires first != ""
    ensures BoxText(first, x, y, z) != ""
  {
  }

  /** Every annotation of the documented form is rewritten, label and box unchanged,
      and what follows is normalised on its own. */
  lemma {:induction false} DocumentedFormIsRewritten(blanks: string, name: string, more: string, first: string, x: Next,
      y: Next, z: Next, rest: string)
    requires All(blanks, Space) && name != "" && All(name, Label) && All(more, Space)
    requires first != "" && All(first, Digit) && NextOk(x) && NextOk(y) && NextOk(z)
    ensures var box := BoxText(first, x, y, z);
            Norm(Annotation(blanks, name, more, box) + rest) ==
            "<|ref|>" + name + "<|/ref|><|det|>[[" + box + "]]<|/det|>\n" + Norm(rest)
  {
    hide All, NextOk, BoxText, Matches, Parse, Norm, OPEN, CLOSE;
    var box := BoxText(first, x, y, z);
    var s := Annotation(blanks, name, more, box) + rest;
    var a := |OPEN| + |blanks|;
    var d := a + |name| + |more| + 1;
    var m := Match(a, a + |name|, d, d + |box|);
    DocumentedFormMatches(blanks, name, more, first, x, y, z, rest);
    ParseMatches(s, m);
    MatchIsRewritten(s);
    assert s[a..a + |name|] == name && s[d..d + |box|] == box;
    assert s[Length(m)..] == rest;
  }

  // ---- only that form is rewritten -------------------------------------------

  lemma {:induction false} RunIs(s: string, i: nat, class_: Class)
    requires i <= |s|
    ensures All(s[i..Run(s, i, class_)], class_)
  {
  }

  lemma {:induction false} CommaIs(s: string, i: nat) returns (n: Next)
    requires i <= |s| && Comma(s, i).Some?
    ensures NextOk(n) && s[i..Comma(s, i).value] == Spelled(n)
  {
    hide Run, All;
    var p := Run(s, i, Space);
    var q := Run(s, p + 1, Space);
    var r := Run(s, q, Digit);
    RunIs(s, i, Space);
    RunIs(s, p + 1, Space);
    RunIs(s, q, Digit);
    n := Next(s[i..p], s[p + 1..q], s[q..r]);
    assert s[i..r] == s[i..p] + [s[p]] + s[p + 1..q] + s[q..r];
  }

  lemma {:induction false} BoxIs(s: string, i: nat) returns (first: string, x: Next, y: Next, z: Next)
    requires i <= |s| && Box(s, i).Some?
    ensures first != "" && All(first, Digit) && NextOk(x) && NextOk(y) && NextOk(z)
    ensures s[i..Box(s, i).value] == BoxText(first, x, y, z)
  {
    hide Run, All, Comma, NextOk, Spelled;
    var d := Run(s, i, Digit);
    RunIs(s, i, Digit);
    first := s[i..d];
    x := CommaIs(s, d);
    var p := Comma(s, d).value;
    y := CommaIs(s, p);
    var q := Comma(s, p).value;
    z := CommaIs(s, q);
    var r := Comma(s, q).value;
    assert s[i..r] == s[i..d] + s[d..p] + s[p..q] + s[q..r];
  }

  /** Whatever is rewritten had the documented form, label and box included. */
  lemma {:induction false} OnlyTheDocumentedForm(s: string)
    returns (blanks: string, name: string, more: string, first: string, x: Next, y: Next, z: Next, rest: string)
    requires Parse(s).Some?
    ensures All(blanks, Space) && name != "" && All(name, Label) && All(more, Space)
    ensures first != "" && All(first, Digit) && NextOk(x) && NextOk(y) && NextOk(z)
    ensures s == Annotation(blanks, name, more, BoxText(first, x, y, z)) + rest
  {
    hide Run, All, Box, NextOk, BoxText;
    var m := Parse(s).value;
    var a, b, c, e := m.labelStart, m.labelEnd, m.boxStart - 1, m.boxEnd;
    RunIs(s, |OPEN|, Space);
    RunIs(s, a, Label);
    RunIs(s, b, Space);
    blanks, name, more, rest := s[|OPEN|..a], s[a..b], s[b..c], s[Length(m)..];
    first, x, y, z := BoxIs(s, c + 1);
    Seven(s, |OPEN|, a, b, c, e, Length(m));
  }

  lemma {:induction false} Seven(s: string, o: nat, a: nat, b: nat, c: nat, e: nat, n: nat)
    requires o <= a <= b <= c < e < n <= |s|
    ensures s == s[..o] + s[o..a] + s[a..b] + s[b..c] + [s[c]] + s[c + 1..e] + [s[e]] + s[e + 1..n] + s[n..]
  {
  }
}
