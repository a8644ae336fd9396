/** The cached element scanner (`ElementScanner`, src/mapping/html.cpp) against the
    scan without caches. A search that finds nothing gives the text's length. */
module ElementScanner {
  import opened Common

  /** An element: which listed name it has and where its content lies. */
  datatype Found = Found(name: nat, start: nat, end: nat)

  /** What one call gives: an element or none, and the position to go on from. */
  datatype Outcome = Outcome(found: Option<Found>, pos: nat)

  predicate Space(ch: char) {
    ch == ' ' || ch == '\t' || ch == '\n' || ch as int == 11 || ch as int == 12 || ch == '\r'
  }

  predicate Spells(text: string, pos: nat, name: string) {
    pos + |name| <= |text| && forall i :: 0 <= i < |name| ==> Lower(text[pos + i]) == name[i]
  }

  function FirstChar(text: string, ch: char, from: nat): (at: nat)
    requires from <= |text|
    ensures from <= at <= |text| && (at < |text| ==> text[at] == ch) && forall i :: from <= i < at ==> text[i] != ch
    decreases |text| - from
  {
    if from == |text| || text[from] == ch then from else FirstChar(text, ch, from + 1)
  }

  function FirstSpelled(text: string, needle: string, from: nat): (at: nat)
    requires from <= |text|
    ensures from <= at <= |text| && (at < |text| ==> Spells(text, at, needle)) &&
            forall i :: from <= i < at ==> !Spells(text, i, needle)
    decreases |text| - from
  {
    if from == |text| || Spells(text, from, needle) then from else FirstSpelled(text, needle, from + 1)
  }

  function Closer(name: string): string {
    "</" + name + ">"
  }

  /** The name is spelled at the opener and ends right there. */
  predicate Opens(text: string, open: nat, name: string) {
    Spells(text, open + 1, name) && open + 1 + |name| < |text| &&
    (Space(text[open + 1 + |name|]) || text[open + 1 + |name|] == '>' || text[open + 1 + |name|] == '/')
  }

  /** The first listed name that opens at `open`, or the number of names. */
  function NameAt(text: string, names: seq<string>, open: nat, k: nat): (i: nat)
    requires k <= |names|
    ensures k <= i <= |names| && (i < |names| ==> Opens(text, open, names[i])) &&
            forall j :: k <= j < i ==> !Opens(text, open, names[j])
    decreases |names| - k
  {
    if k == |names| || Opens(text, open, names[k]) then k else NameAt(text, names, open, k + 1)
  }

  /** The scan without caches: every search starts afresh. */
  function Scan(text: string, names: seq<string>, pos: nat): (o: Outcome)
    requires pos <= |text|
    decreases |text| - pos
  {
    var open := FirstChar(text, '<', pos);
    if open == |text| then Outcome(None, pos)
    else
      var i := NameAt(text, names, open, 0);
      if i == |names| then Scan(text, names, open + 1)
      else
        var gt := FirstChar(text, '>', open + 1 + |names[i]|);
        if gt == |text| then Outcome(None, |text|)
        else
          var close := FirstSpelled(text, Closer(names[i]), gt + 1);
          if close == |text| then Scan(text, names, open + 1)
          else Outcome(Some(Found(i, gt + 1, close)), close + |Closer(names[i])|)
  }

  // ---- searches from further on ------------------------------------------

  lemma {:induction false} CharFromLater(text: string, ch: char, a: nat, b: nat)
    requires a <= b <= |text|
    ensures FirstChar(text, ch, a) <= FirstChar(text, ch, b)
    ensures b <= FirstChar(text, ch, a) ==> FirstChar(text, ch, b) == FirstChar(text, ch, a)
  {
    var x, y := FirstChar(text, ch, a), FirstChar(text, ch, b);
    assert !(y < x && y < |text| && a <= y);
    assert !(b <= x < y && x < |text|);
  }

  lemma {:induction false} SpelledFromLater(text: string, needle: string, a: nat, b: nat)
    requires a <= b <= |text|
    ensures b <= FirstSpelled(text, needle, a) ==> FirstSpelled(text, needle, b) == FirstSpelled(text, needle, a)
  {
    var x, y := FirstSpelled(text, needle, a), FirstSpelled(text, needle, b);
    assert !(y < x && y < |text| && a <= y);
    assert !(b <= x < y && x < |text|);
  }

  /** Names hold no '<', so the next opener lies behind the name just read. */
  lemma {:induction false} OpenerBehindName(text: string, open: nat, name: string)
    requires Opens(text, open, name) && '<' !in name
    ensures open + 1 + |name| <= FirstChar(text, '<', open + 1)
  {
    forall k | open < k < open + 1 + |name| ensures text[k] != '<' {
      var ch := name[k - open - 1];
      assert ch in name && Lower(text[open + 1 + (k - open - 1)]) == ch;
    }
  }

  // ---- the scanner -------------------------------------------------------

  datatype Cached = Cached(searched: bool, from: nat, at: nat)

  /** The position of the next opener from `pos` on. */
  function Ahead(text: string, pos: nat): nat
    requires pos <= |text|
  {
    FirstChar(text, '<', pos)
  }

  /** A remembered '>' is what a search from its start finds, and no later search
      will start before it. */
  ghost predicate GtOk(text: string, pos: nat, c: Cached) {
    c.searched ==> pos <= |text| && c.from <= Ahead(text, pos) && c.at == FirstChar(text, '>', c.from)
  }

  ghost predicate CloseOk(text: string, pos: nat, needle: string, c: Cached) {
    c.searched ==> pos <= |text| && c.from <= |text| && c.from <= FirstChar(text, '>', Ahead(text, pos)) + 1
                   && c.at == FirstSpelled(text, needle, c.from)
  }

  lemma {:induction false} MoveOn(text: string, a: nat, b: nat)
    requires a <= b <= |text|
    ensures Ahead(text, a) <= Ahead(text, b) &&
            FirstChar(text, '>', Ahead(text, a)) <= FirstChar(text, '>', Ahead(text, b))
  {
    CharFromLater(text, '<', a, b);
    CharFromLater(text, '>', Ahead(text, a), Ahead(text, b));
  }

  lemma {:induction false} GtMovesOn(text: string, a: nat, b: nat, c: Cached)
    requires a <= b <= |text| && GtOk(text, a, c)
    ensures GtOk(text, b, c)
  {
    MoveOn(text, a, b);
  }

  ghost predicate ClosesOk(text: string, names: seq<string>, pos: nat, closes: seq<Cached>) {
    |closes| == |names| && forall i :: 0 <= i < |names| ==> CloseOk(text, pos, Closer(names[i]), closes[i])
  }

  lemma {:induction false} ClosesMoveOn(text: string, names: seq<string>, a: nat, b: nat, closes: seq<Cached>)
    requires a <= b <= |text| && ClosesOk(text, names, a, closes)
    ensures ClosesOk(text, names, b, closes)
  {
    MoveOn(text, a, b);
    hide FirstChar, FirstSpelled;
    forall i | 0 <= i < |names| ensures CloseOk(text, b, Closer(names[i]), closes[i]) {
      assert CloseOk(text, a, Closer(names[i]), closes[i]);
    }
  }

  class Scanner {
    const text: string
    const names: seq<string>
    var pos: nat
    var gt: Cached
    var closes: seq<Cached>

    ghost predicate Valid()
      reads this
    {
      pos <= |text| && GtOk(text, pos, gt) && ClosesOk(text, names, pos, closes) &&
      forall i :: 0 <= i < |names| ==> '<' !in names[i]
    }

    constructor (text: string, names: seq<string>)
      requires forall i :: 0 <= i < |names| ==> '<' !in names[i]
      ensures Valid() && this.text == text && this.names == names && pos == 0
    {
      this.text := text;
      this.names := names;
      pos := 0;
      gt := Cached(false, 0, |text|);
      closes := seq(|names|, _ => Cached(false, 0, |text|));
    }

    /** The cached search for '>' answers as a fresh one would. */
    method NextGt(from: nat) returns (at: nat)
      requires from <= |text| && (gt.searched ==> gt.from <= from && gt.at == FirstChar(text, '>', gt.from))
      modifies this`gt
      ensures at == FirstChar(text, '>', from)
      ensures gt.searched && gt.from <= from && gt.at == FirstChar(text, '>', gt.from)
    {
      if gt.searched {
        CharFromLater(text, '>', gt.from, from);
      }
      if !gt.searched || (if gt.at == |text| then from < gt.from else gt.at < from) {
        gt := Cached(true, from, FirstChar(text, '>', from));
      }
      at := gt.at;
    }

    method NextClose(i: nat, from: nat) returns (at: nat)
      requires i < |names| == |closes| && from <= |text|
      requires closes[i].searched ==>
                 closes[i].from <= from && closes[i].at == FirstSpelled(text, Closer(names[i]), closes[i].from)
      modifies this`closes
      ensures at == FirstSpelled(text, Closer(names[i]), from)
      ensures |closes| == |names| && closes == old(closes)[i := closes[i]]
      ensures closes[i].searched && closes[i].from <= from &&
              closes[i].at == FirstSpelled(text, Closer(names[i]), closes[i].from)
    {
      var cached := closes[i];
      if cached.searched {
        SpelledFromLater(text, Closer(names[i]), cached.from, from);
      }
      if !cached.searched || (if cached.at == |text| then from < cached.from else cached.at < from) {
        closes := closes[i := Cached(true, from, FirstSpelled(text, Closer(names[i]), from))];
      }
      at := closes[i].at;
    }

    /** The next element, exactly as the scan without caches finds it. */
    method Next() returns (found: Option<Found>)
      requires Valid()
      modifies this
      ensures Valid() && Outcome(found, pos) == Scan(text, names, old(pos))
    {
      hide FirstChar, FirstSpelled, Spells, GtOk, ClosesOk, Opens;
      while pos < |text|
        invariant Valid() && Scan(text, names, old(pos)) == Scan(text, names, pos)
        decreases |text| - pos
      {
        var open := FirstChar(text, '<', pos);
        if open == |text| {
          return None;
        }
        var i := FirstName(open);
        if i < |names| {
          found := TryElement(open, i);
          if found.Some? || pos == |text| {
            return;
          }
        } else {
          GtMovesOn(text, pos, open + 1, gt);
          ClosesMoveOn(text, names, pos, open + 1, closes);
          pos := open + 1;
        }
      }
      found := None;
    }

    /** The names in order, up to the first that opens here. */
    method FirstName(open: nat) returns (i: nat)
      ensures i == NameAt(text, names, open, 0)
    {
      i := 0;
      while i < |names| && !Opens(text, open, names[i])
        invariant i <= |names| && NameAt(text, names, open, 0) == NameAt(text, names, open, i)
      {
        i := i + 1;
      }
    }

    /** The element that name `i` opens at `open`, if it is one. */
    method TryElement(open: nat, i: nat) returns (found: Option<Found>)
      requires Valid() && open < |text| && open == FirstChar(text, '<', pos) &&
               i == NameAt(text, names, open, 0) < |names|
      modifies this
      ensures Valid() && old(pos) < pos
      ensures found.None? && pos < |text| ==> Scan(text, names, old(pos)) == Scan(text, names, pos)
      ensures found.Some? || pos == |text| ==> Outcome(found, pos) == Scan(text, names, old(pos))
    {
      hide FirstChar, FirstSpelled, Spells, Scan, Opens, GtOk, ClosesOk, NameAt, Closer;
      ghost var before := pos;
      GtBefore(text, pos, gt);
      ScanFound(text, names, pos);
      OpenerBehindName(text, open, names[i]);
      pos := open + 1;
      var g := NextGt(open + 1 + |names[i]|);
      if g == |text| {
        pos := |text|;
        GtIsBehind(text, open + 1 + |names[i]|, pos, gt);
        ClosesMoveOn(text, names, before, pos, closes);
        return None;
      }
      found := TryClose(before, open, i, g);
    }

    /** The content from g + 1 to its closing tag; without one, nothing opened. */
    method TryClose(ghost before: nat, open: nat, i: nat, g: nat) returns (found: Option<Found>)
      requires before <= open < |text| && open == FirstChar(text, '<', before) && pos == open + 1 && i < |names|
      requires open + 1 + |names[i]| <= Ahead(text, pos) && g == FirstChar(text, '>', open + 1 + |names[i]|) < |text|
      requires ClosesOk(text, names, before, closes) && (forall i :: 0 <= i < |names| ==> '<' !in names[i])
      requires gt.from <= open + 1 + |names[i]| && gt.at == FirstChar(text, '>', gt.from)
      modifies this`pos, this`closes
      ensures Valid()
      ensures var close := FirstSpelled(text, Closer(names[i]), g + 1);
              if close == |text| then found == None && pos == open + 1
              else found == Some(Found(i, g + 1, close)) && pos == close + |Closer(names[i])|
    {
      hide FirstChar, FirstSpelled, Spells, GtOk, ClosesOk, Closer;
      var nameEnd := open + 1 + |names[i]|;
      CharFromLater(text, '>', open, nameEnd);
      CloseBefore(text, names, before, closes, i);
      ghost var was := closes;
      var close := NextClose(i, g + 1);
      found := None;
      if close < |text| {
        SpelledFits(text, Closer(names[i]), close);
        pos := close + |Closer(names[i])|;
        found := Some(Found(i, g + 1, close));
      }
      Reached(text, names, before, pos, was, closes, i, nameEnd, g);
      GtIsBehind(text, nameEnd, pos, gt);
    }
  }

  lemma {:induction false} SpelledFits(text: string, needle: string, at: nat)
    requires Spells(text, at, needle)
    ensures at + |needle| <= |text|
  {
  }

  lemma {:induction false} GtBefore(text: string, pos: nat, c: Cached)
    requires pos <= |text| && GtOk(text, pos, c)
    ensures c.searched ==> c.from <= FirstChar(text, '<', pos) && c.at == FirstChar(text, '>', c.from)
  {
  }

  lemma {:induction false} CloseBefore(text: string, names: seq<string>, pos: nat, closes: seq<Cached>, i: nat)
    requires pos <= |text| && ClosesOk(text, names, pos, closes) && i < |names|
    ensures |closes| == |names|
    ensures closes[i].searched ==>
              && closes[i].from <= FirstChar(text, '>', FirstChar(text, '<', pos)) + 1 && closes[i].from <= |text|
              && closes[i].at == FirstSpelled(text, Closer(names[i]), closes[i].from)
  {
    assert CloseOk(text, pos, Closer(names[i]), closes[i]);
  }

  lemma {:induction false} GtIsBehind(text: string, nameEnd: nat, pos: nat, c: Cached)
    requires pos <= |text| && nameEnd <= Ahead(text, pos) && c.from <= nameEnd && c.at == FirstChar(text, '>', c.from)
    ensures GtOk(text, pos, c)
  {
  }

  /** Moving on to `pos`, with the closing tag of name `i` searched from g + 1. */
  lemma {:induction false} Reached(text: string, names: seq<string>, before: nat, pos: nat, was: seq<Cached>,
                                   closes: seq<Cached>, i: nat, nameEnd: nat, g: nat)
    requires before <= pos <= |text| && nameEnd <= Ahead(text, pos) && g == FirstChar(text, '>', nameEnd) < |text|
    requires ClosesOk(text, names, before, was) && i < |names| && |closes| == |names| && closes == was[i := closes[i]]
    requires closes[i].from <= g + 1 && closes[i].at == FirstSpelled(text, Closer(names[i]), closes[i].from)
    ensures ClosesOk(text, names, pos, closes)
  {
    hide FirstChar, FirstSpelled;
    ClosesMoveOn(text, names, before, pos, was);
    CharFromLater(text, '>', nameEnd, Ahead(text, pos));
    forall j | 0 <= j < |names| ensures CloseOk(text, pos, Closer(names[j]), closes[j]) {
      assert CloseOk(text, pos, Closer(names[j]), was[j]);
    }
  }

  /** One round of the scan, spelled out. */
  lemma {:induction false} ScanFound(text: string, names: seq<string>, pos: nat)
    requires pos <= |text|
    ensures var open := FirstChar(text, '<', pos);
            open < |text| && NameAt(text, names, open, 0) < |names| ==>
              var i := NameAt(text, names, open, 0);
              var g := FirstChar(text, '>', open + 1 + |names[i]|);
              && (g == |text| ==> Scan(text, names, pos) == Outcome(None, |text|))
              && (g < |text| ==>
                    var close := FirstSpelled(text, Closer(names[i]), g + 1);
                    Scan(text, names, pos) == if close == |text| then Scan(text, names, open + 1)
                                              else Outcome(Some(Found(i, g + 1, close)), close + |Closer(names[i])|))
  {
  }

  // ---- whole runs --------------------------------------------------------

  /** An element as the scan promises it: an opening tag that ends at the first '>'
      behind its name, and content up to the first closing tag of that name. */
  ghost predicate IsElement(text: string, names: seq<string>, e: Found, open: nat) {
    && e.name < |names| && open < e.start <= e.end && e.end + |Closer(names[e.name])| <= |text|
    && text[open] == '<' && Opens(text, open, names[e.name])
    && (forall j :: 0 <= j < e.name ==> !Opens(text, open, names[j]))
    && open + 1 + |names[e.name]| < e.start && text[e.start - 1] == '>'
    && (forall k :: open + 1 + |names[e.name]| <= k < e.start - 1 ==> text[k] != '>')
    && Spells(text, e.end, Closer(names[e.name])) &&
       (forall k :: e.start <= k < e.end ==> !Spells(text, k, Closer(names[e.name])))
  }

  ghost predicate ElementFrom(text: string, names: seq<string>, e: Found, pos: nat) {
    exists open :: pos <= open && IsElement(text, names, e, open)
  }

  lemma {:induction false} ElementFromEarlier(text: string, names: seq<string>, e: Found, a: nat, b: nat)
    requires a <= b && ElementFrom(text, names, e, b)
    ensures ElementFrom(text, names, e, a)
  {
    hide IsElement;
    var open :| b <= open && IsElement(text, names, e, open);
    assert a <= open && IsElement(text, names, e, open);
  }

  lemma {:induction false} ScanFindsElements(text: string, names: seq<string>, pos: nat)
    requires pos <= |text|
    ensures var o := Scan(text, names, pos);
            && pos <= o.pos <= |text|
            && (o.found.Some? ==>
                  var e := o.found.value;
                  e.name < |names| && o.pos == e.end + |Closer(names[e.name])| && pos < e.start <= e.end &&
                    ElementFrom(text, names, e, pos))
    decreases |text| - pos
  {
    hide IsElement, Spells, Opens, FirstChar, FirstSpelled, NameAt, ElementFrom, Closer;
    var open := FirstChar(text, '<', pos);
    if open < |text| {
      ScanFindsElements(text, names, open + 1);
      var o := Scan(text, names, open + 1);
      if o.found.Some? {
        ElementFromEarlier(text, names, o.found.value, pos, open + 1);
      }
      var i := NameAt(text, names, open, 0);
      if i < |names| {
        ElementAt(text, names, pos);
      }
    }
  }

  lemma {:induction false} ElementAt(text: string, names: seq<string>, pos: nat)
    requires pos <= |text| && FirstChar(text, '<', pos) < |text|
    requires NameAt(text, names, FirstChar(text, '<', pos), 0) < |names|
    ensures var open := FirstChar(text, '<', pos);
            var i := NameAt(text, names, open, 0);
            open + 1 + |names[i]| < |text| &&
            var gt := FirstChar(text, '>', open + 1 + |names[i]|);
            gt < |text| ==>
              var close := FirstSpelled(text, Closer(names[i]), gt + 1);
              close < |text| ==>
                close + |Closer(names[i])| <= |text| && ElementFrom(text, names, Found(i, gt + 1, close), pos)
  {
    var open := FirstChar(text, '<', pos);
    var i := NameAt(text, names, open, 0);
    var gt := FirstChar(text, '>', open + 1 + |names[i]|);
    hide Spells;
    if gt < |text| {
      var close := FirstSpelled(text, Closer(names[i]), gt + 1);
      if close < |text| {
        SpelledFits(text, Closer(names[i]), close);
        OpensDelimited(text, open, names[i]);
        assert IsElement(text, names, Found(i, gt + 1, close), open);
      }
    }
  }

  lemma {:induction false} OpensDelimited(text: string, open: nat, name: string)
    requires Opens(text, open, name)
    ensures open + 1 + |name| < |text|
  {
  }

  /** A '<' that opens a listed name, has a '>' behind it and a closing tag behind
      that. */
  ghost predicate Complete(text: string, names: seq<string>, p: nat) {
    p < |text| && text[p] == '<' &&
    var i := NameAt(text, names, p, 0);
    i < |names| && p + 1 + |names[i]| < |text| &&
    var g := FirstChar(text, '>', p + 1 + |names[i]|);
    g < |text| && FirstSpelled(text, Closer(names[i]), g + 1) < |text|
  }

  /** Nothing is missed: the scan passes over no complete element, neither before the
      one it finds nor anywhere when it finds none. */
  lemma {:induction false} NothingIsMissed(text: string, names: seq<string>, pos: nat) returns (open: nat)
    requires pos <= |text| && forall i :: 0 <= i < |names| ==> '<' !in names[i]
    ensures pos <= open <= |text| && (Scan(text, names, pos).found.Some? <==> open < |text|)
    ensures open < |text| ==>
              Complete(text, names, open) && IsElement(text, names, Scan(text, names, pos).found.value, open)
    ensures forall p :: pos <= p < open ==> !Complete(text, names, p)
    decreases |text| - pos
  {
    hide Spells, Opens, IsElement, Closer, Complete, Scan, FirstChar, FirstSpelled, NameAt;
    var first := FirstChar(text, '<', pos);
    ScanFound(text, names, pos);
    ScanSkips(text, names, pos);
    NothingBeforeOpener(text, names, pos);
    if first == |text| {
      return |text|;
    }
    var i := NameAt(text, names, first, 0);
    IncompleteAt(text, names, first);
    if i < |names| {
      OpensDelimited(text, first, names[i]);
      var g := FirstChar(text, '>', first + 1 + |names[i]|);
      if g == |text| {
        NoGtNoElement(text, names, first, i);
        return |text|;
      }
      var close := FirstSpelled(text, Closer(names[i]), g + 1);
      if close < |text| {
        FoundIsElement(text, names, first, i, g, close);
        return first;
      }
    }
    open := NothingIsMissed(text, names, first + 1);
  }

  lemma {:induction false} ScanSkips(text: string, names: seq<string>, pos: nat)
    requires pos <= |text|
    ensures var open := FirstChar(text, '<', pos);
            && (open == |text| ==> Scan(text, names, pos).found.None?)
            && (open < |text| && NameAt(text, names, open, 0) == |names| ==>
               Scan(text, names, pos) == Scan(text, names, open + 1))
  {
  }

  lemma {:induction false} NothingBeforeOpener(text: string, names: seq<string>, pos: nat)
    requires pos <= |text|
    ensures forall p :: pos <= p < FirstChar(text, '<', pos) ==> !Complete(text, names, p)
  {
  }

  lemma {:induction false} IncompleteAt(text: string, names: seq<string>, p: nat)
    requires p < |text|
    ensures var i := NameAt(text, names, p, 0);
            Complete(text, names, p) <==>
            && text[p] == '<' && i < |names| && p + 1 + |names[i]| < |text|
            && FirstChar(text, '>', p + 1 + |names[i]|) < |text|
            && FirstSpelled(text, Closer(names[i]), FirstChar(text, '>', p + 1 + |names[i]|) + 1) < |text|
  {
  }

  lemma {:induction false} NoGtNoElement(text: string, names: seq<string>, open: nat, i: nat)
    requires open < |text| && text[open] == '<' && i == NameAt(text, names, open, 0) < |names| && '<' !in names[i]
    requires open + 1 + |names[i]| < |text| && FirstChar(text, '>', open + 1 + |names[i]|) == |text|
    ensures forall p :: open <= p < |text| ==> !Complete(text, names, p)
  {
    hide Spells, Closer;
    OpenerBehindName(text, open, names[i]);
    forall p | open < p < |text| && text[p] == '<' ensures p >= open + 1 + |names[i]| {
      assert FirstChar(text, '<', open + 1) <= p;
    }
  }

  lemma {:induction false} FoundIsElement(text: string, names: seq<string>, open: nat, i: nat, g: nat, close: nat)
    requires open < |text| && text[open] == '<' && i == NameAt(text, names, open, 0) < |names| &&
             open + 1 + |names[i]| < |text|
    requires g == FirstChar(text, '>', open + 1 + |names[i]|) < |text| &&
             close == FirstSpelled(text, Closer(names[i]), g + 1) < |text|
    ensures IsElement(text, names, Found(i, g + 1, close), open)
  {
    hide Spells;
    SpelledFits(text, Closer(names[i]), close);
  }

  /** Every element of a text, by calling the scan until it finds none. */
  function Elements(text: string, names: seq<string>, pos: nat): seq<Found>
    requires pos <= |text|
    decreases |text| - pos
  {
    var o := Scan(text, names, pos);
    if o.found.None? || o.pos <= pos || o.pos > |text| then [] else [o.found.value] + Elements(text, names, o.pos)
  }

  /** Elements behind `pos`, disjoint and in source order, closing tags included. */
  ghost predicate InSourceOrder(text: string, names: seq<string>, es: seq<Found>, pos: nat) {
    && (forall k :: 0 <= k < |es| ==>
          es[k].name < |names| && pos < es[k].start <= es[k].end && ElementFrom(text, names, es[k], pos))
    && (forall j, k :: 0 <= j < k < |es| ==> es[j].end + |Closer(names[es[j].name])| < es[k].start)
  }

  lemma {:induction false} OneMoreInFront(text: string, names: seq<string>, e: Found, rest: seq<Found>, pos: nat)
    requires e.name < |names| && pos < e.start <= e.end && ElementFrom(text, names, e, pos)
    requires InSourceOrder(text, names, rest, e.end + |Closer(names[e.name])|)
    ensures InSourceOrder(text, names, [e] + rest, pos)
  {
    hide ElementFrom;
    var es := [e] + rest;
    forall k | 0 <= k < |es| ensures ElementFrom(text, names, es[k], pos) {
      if k > 0 {
        ElementFromEarlier(text, names, rest[k - 1], pos, e.end + |Closer(names[e.name])|);
      }
    }
  }

  /** The elements of a whole run are disjoint and in source order, and each is what
      the scan promises. */
  lemma {:induction false} ElementsAreDisjoint(text: string, names: seq<string>, pos: nat)
    requires pos <= |text|
    ensures InSourceOrder(text, names, Elements(text, names, pos), pos)
    decreases |text| - pos
  {
    hide Scan, ElementFrom;
    var o := Scan(text, names, pos);
    ScanFindsElements(text, names, pos);
    if !(o.found.None? || o.pos <= pos || o.pos > |text|) {
      ElementsAreDisjoint(text, names, o.pos);
      OneMoreInFront(text, names, o.found.value, Elements(text, names, o.pos), pos);
    }
  }

  // ---- elements as they are written ----------------------------------------

  predicate Delimits(ch: char) {
    9 <= ch as int <= 13 || ch == ' ' || ch == '>' || ch == '/'
  }

  ghost predicate Writes(tag: string, name: string) {
    |tag| == |name| && forall i :: 0 <= i < |tag| ==> Lower(tag[i]) == name[i]
  }

  /** A '<' opens a name exactly when the name follows, in any case, and ends right
      there: `<p` is not `<pre`. */
  lemma {:induction false} OpensExactly(before: string, tag: string, ch: char, after: string, name: string)
    requires |tag| == |name|
    ensures Opens(before + "<" + tag + [ch] + after, |before|, name) <==> Writes(tag, name) && Delimits(ch)
  {
    var text := before + "<" + tag + [ch] + after;
    var p := |before| + 1;
    assert forall i :: 0 <= i < |tag| ==> text[p + i] == tag[i];
    assert text[p + |tag|] == ch;
  }

  lemma {:induction false} CharBehind(text: string, before: string, gap: string, after: string, ch: char)
    requires text == before + gap + [ch] + after && ch !in gap
    ensures FirstChar(text, ch, |before|) == |before| + |gap|
  {
    assert text[|before| + |gap|] == ch;
    assert forall i :: |before| <= i < |before| + |gap| ==> text[i] == gap[i - |before|] && gap[i - |before|] in gap;
  }

  lemma {:induction false} CloserIsSpelled(text: string, before: string, tag: string, after: string, name: string)
    requires text == before + "</" + tag + ">" + after && Writes(tag, name)
    ensures Spells(text, |before|, Closer(name))
  {
    var needle, p := Closer(name), |before|;
    assert text[p] == '<' && text[p + 1] == '/' && text[p + 2 + |tag|] == '>';
    assert forall i :: 0 <= i < |tag| ==> text[p + 2 + i] == tag[i] && needle[2 + i] == name[i];
  }

  /** A closing tag does not begin inside content that holds none. */
  lemma {:induction false} NoCloserInside(text: string, before: string, body: string, after: string,
        name: string, i: nat)
    requires text == before + body + after && after != "" && after[0] == '<' && '<' !in name
    requires (forall k :: 0 <= k < |body| ==> !Spells(body, k, Closer(name))) && i < |body|
    ensures !Spells(text, |before| + i, Closer(name))
  {
    var needle, p := Closer(name), |before| + i;
    if i + |needle| <= |body| {
      SpelledInside(text, before, body, after, needle, i);
    } else {
      var k := |body| - i;
      assert text[p + k] == after[0];
      assert needle[k] in name || needle[k] == '/' || needle[k] == '>';
      SpelledChar(text, p, needle, k);
    }
  }

  lemma {:induction false} SpelledChar(text: string, p: nat, needle: string, k: nat)
    requires k < |needle| && p + k < |text|
    ensures Spells(text, p, needle) ==> Lower(text[p + k]) == needle[k]
  {
  }

  lemma {:induction false} SpelledInside(text: string, before: string, body: string, after: string, needle: string,
                                         i: nat)
    requires text == before + body + after && i + |needle| <= |body|
    ensures Spells(text, |before| + i, needle) <==> Spells(body, i, needle)
  {
    assert forall j :: i <= j < i + |needle| ==> text[|before| + j] == body[j];
  }

  /** An element written out is found whole: the opening tag in any case, with any
      attributes free of '>', and content free of the closing tag. */
  lemma {:induction false} WrittenElementIsFound(before: string, tag: string, attributes: string, body: string,
                                                 tag': string, after: string, name: string)
    requires '<' !in before && Writes(tag, name) && Writes(tag', name) && '<' !in name
    requires '>' !in attributes && (attributes == "" || Delimits(attributes[0]))
    requires forall k :: 0 <= k < |body| ==> !Spells(body, k, Closer(name))
    ensures var head, tail := before + "<" + tag + attributes + ">", "</" + tag' + ">" + after;
            Scan(head + body + tail, [name], 0) ==
              Outcome(Some(Found(0, |head|, |head| + |body|)), |head| + |body| + |Closer(name)|)
  {
    hide Spells, Opens, Scan, FirstChar, FirstSpelled, Closer, Writes, Delimits;
    var head, tail := before + "<" + tag + attributes + ">", "</" + tag' + ">" + after;
    var text := head + body + tail;
    WritesLength(tag, name);
    assert text == before + "<" + tag + attributes + ">" + (body + tail);
    TagOpens(text, before, tag, attributes, body + tail, name);
    CloserFound(text, head, body, tag', after, name);
    ScanFound(text, [name], 0);
  }

  lemma {:induction false} WritesLength(tag: string, name: string)
    requires Writes(tag, name)
    ensures |tag| == |name|
  {
  }

  lemma {:induction false} TagOpens(text: string, before: string, tag: string, attributes: string, rest: string,
                                    name: string)
    requires text == before + "<" + tag + attributes + ">" + rest
    requires '<' !in before && Writes(tag, name) && '>' !in attributes
    requires attributes == "" || Delimits(attributes[0])
    ensures FirstChar(text, '<', 0) == |before| && NameAt(text, [name], |before|, 0) == 0
    ensures FirstChar(text, '>', |before| + 1 + |tag|) == |before| + 1 + |tag| + |attributes|
  {
    hide Spells, Opens, FirstChar;
    var behind := attributes + ">" + rest;
    assert text == "" + before + ['<'] + (tag + behind);
    CharBehind(text, "", before, tag + behind, '<');
    assert behind == [behind[0]] + behind[1..];
    assert text == before + "<" + tag + [behind[0]] + behind[1..];
    OpensExactly(before, tag, behind[0], behind[1..], name);
    var start := before + "<" + tag;
    assert text == start + attributes + ['>'] + rest;
    CharBehind(text, start, attributes, rest, '>');
  }

  lemma {:induction false} CloserFound(text: string, head: string, body: string, tag: string, after: string,
                                       name: string)
    requires text == head + body + ("</" + tag + ">" + after) && Writes(tag, name) && '<' !in name
    requires forall k :: 0 <= k < |body| ==> !Spells(body, k, Closer(name))
    ensures FirstSpelled(text, Closer(name), |head|) == |head| + |body|
  {
    hide Spells, FirstSpelled, Closer, Writes;
    var tail := "</" + tag + ">" + after;
    assert text == (head + body) + "</" + tag + ">" + after;
    CloserIsSpelled(text, head + body, tag, after, name);
    forall i | |head| <= i < |head| + |body| ensures !Spells(text, i, Closer(name)) {
      NoCloserInside(text, head, body, tail, name, i - |head|);
    }
    FirstSpelledIs(text, Closer(name), |head|, |head| + |body|);
  }

  lemma {:induction false} FirstSpelledIs(text: string, needle: string, from: nat, at: nat)
    requires from <= at < |text| && Spells(text, at, needle)
    requires forall i :: from <= i < at ==> !Spells(text, i, needle)
    ensures FirstSpelled(text, needle, from) == at
  {
    hide Spells;
  }
}
