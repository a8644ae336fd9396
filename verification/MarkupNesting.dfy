/** What the element tree guarantees about HTML tags by name. */
module MarkupNesting {
  import opened Common
  import opened MarkupTree
  import Entities

  // ---- nearest ancestors -------------------------------------------------

  /** The tag of the nearest proper ancestor that is one of `tags`. */
  function NearestTag(nodes: seq<Node>, n: nat, tags: set<string>): Option<string> {
    if n == 0 || n >= |nodes| || nodes[n].parent >= n then None
    else if nodes[nodes[n].parent].tag in tags then Some(nodes[nodes[n].parent].tag)
    else NearestTag(nodes, nodes[n].parent, tags)
  }

  /** An opening `name` closes elements of `closed` and stops at elements of `bounds`. */
  ghost predicate Follows(name: string, closed: set<string>, bounds: set<string>) {
    forall tag ::
      && (RoleOf(name, tag) == Closed <==> tag in closed)
      && (RoleOf(name, tag) == Boundary <==> tag in bounds)
  }

  lemma {:induction false} NearestIsRole(nodes: seq<Node>, n: nat, name: string, closed: set<string>,
        bounds: set<string>)
    requires Follows(name, closed, bounds)
    ensures NearestRole(nodes, n, name) == Closed <==>
            NearestTag(nodes, n, closed + bounds).Some? && NearestTag(nodes, n, closed + bounds).value in closed
    decreases n
  {
    hide RoleOf;
    if !(n == 0 || n >= |nodes| || nodes[n].parent >= n) {
      NearestIsRole(nodes, nodes[n].parent, name, closed, bounds);
    }
  }

  /** No element of `closed` among the nearest of `tags` above a node. */
  ghost predicate Apart(nodes: seq<Node>, n: nat, closed: set<string>, tags: set<string>) {
    NearestTag(nodes, n, tags).Some? ==> NearestTag(nodes, n, tags).value !in closed
  }

  lemma {:induction false} CellRule(name: string)
    requires name == "td" || name == "th"
    ensures Follows(name, {"td", "th"}, {"tr", "table"})
  {
  }

  lemma {:induction false} RowRule()
    ensures Follows("tr", {"tr"}, {"table"})
  {
  }

  lemma {:induction false} ItemRule()
    ensures Follows("li", {"li"}, {"ul", "ol"})
  {
  }

  const OTHER_BLOCKS: set<string> :=
    {"div", "h1", "h2", "h3", "h4", "h5", "h6", "table", "ul", "ol", "li", "pre", "figure", "form", "caption",
     "figcaption", "hr"}

  lemma {:induction false} BlockNames(tag: string)
    ensures IsBlock(tag) <==> tag in OTHER_BLOCKS || tag == "p"
    ensures "p" !in OTHER_BLOCKS
  {
  }

  lemma {:induction false} ParagraphRule()
    ensures Follows("p", {"p"}, OTHER_BLOCKS)
  {
    hide IsBlock, OTHER_BLOCKS;
    forall tag
      ensures RoleOf("p", tag) == Closed <==> tag in {"p"}
      ensures RoleOf("p", tag) == Boundary <==> tag in OTHER_BLOCKS
    {
      BlockNames(tag);
    }
  }

  lemma {:induction false} NodeIsApart(nodes: seq<Node>, n: nat, closed: set<string>, bounds: set<string>)
    requires Nested(nodes) && n < |nodes| && Follows(nodes[n].tag, closed, bounds)
    ensures Apart(nodes, n, closed, closed + bounds)
  {
    hide RoleOf, NearestTag, NearestRole, Follows;
    NearestIsRole(nodes, n, nodes[n].tag, closed, bounds);
  }

  /** In HTML mode, for every event sequence: the nearest of td, th, tr and table above
      a cell is no cell; the nearest of tr and table above a row is no row; the nearest of
      li, ul and ol above an item is no item; the nearest block above a paragraph is no
      paragraph. */
  lemma {:induction false} TagsAreNested(events: seq<Event>, n: nat)
    requires (forall e :: e in events ==> Proper(e)) && n < |Build(true, events).nodes|
    ensures var nodes := Build(true, events).nodes;
            var tag := nodes[n].tag;
            && (tag == "td" || tag == "th" ==> Apart(nodes, n, {"td", "th"}, {"td", "th", "tr", "table"}))
            && (tag == "tr" ==> Apart(nodes, n, {"tr"}, {"tr", "table"}))
            && (tag == "li" ==> Apart(nodes, n, {"li"}, {"li", "ul", "ol"}))
            && (tag == "p" ==> Apart(nodes, n, {"p"}, {"p"} + OTHER_BLOCKS))
  {
    hide RoleOf, Nested, Apart, Follows, Build, OTHER_BLOCKS;
    TreeIsNested(events);
    var nodes := Build(true, events).nodes;
    var tag := nodes[n].tag;
    if tag == "td" || tag == "th" {
      CellRule(tag);
      NodeIsApart(nodes, n, {"td", "th"}, {"tr", "table"});
      assert {"td", "th"} + {"tr", "table"} == {"td", "th", "tr", "table"};
    } else if tag == "tr" {
      RowRule();
      NodeIsApart(nodes, n, {"tr"}, {"table"});
      assert {"tr"} + {"table"} == {"tr", "table"};
    } else if tag == "li" {
      ItemRule();
      NodeIsApart(nodes, n, {"li"}, {"ul", "ol"});
      assert {"li"} + {"ul", "ol"} == {"li", "ul", "ol"};
    } else if tag == "p" {
      ParagraphRule();
      NodeIsApart(nodes, n, {"p"}, OTHER_BLOCKS);
    }
  }

  // ---- what an opening tag ends ------------------------------------------

  /** From `s` to `t` the nearest open element of `closed` and everything in it was
      ended, unless one of `bounds` lies above it; nothing else changed. */
  ghost predicate EndsNearest(s: State, t: State, closed: set<string>, bounds: set<string>) {
    && Sound(s) && t.nodes == s.nodes && t.stack <= s.stack && t.stack != []
    && (|t.stack| < |s.stack| ==>
          && s.nodes[s.stack[|t.stack|]].tag in closed
          && forall k :: |t.stack| < k < |s.stack| ==> s.nodes[s.stack[k]].tag !in closed + bounds)
    && (|t.stack| == |s.stack| ==>
          forall k :: 0 < k < |s.stack| && s.nodes[s.stack[k]].tag in closed ==>
            exists b :: k < b < |s.stack| && s.nodes[s.stack[b]].tag in bounds)
  }

  lemma {:induction false} OpenEnds(s: State, name: string, closed: set<string>, bounds: set<string>)
    requires Sound(s) && Follows(name, closed, bounds)
    ensures EndsNearest(s, Implicit(s, name), closed, bounds)
  {
    hide RoleOf;
    OpenEndsNearest(s, name);
    var t := Implicit(s, name);
    if |t.stack| == |s.stack| {
      forall k | 0 < k < |s.stack| && s.nodes[s.stack[k]].tag in closed
        ensures exists b :: k < b < |s.stack| && s.nodes[s.stack[b]].tag in bounds
      {
        var b :| k < b < |s.stack| && RoleOf(name, s.nodes[s.stack[b]].tag) == Boundary;
      }
    }
  }

  /** What each opening tag ends, by name; every other tag ends nothing. */
  lemma {:induction false} OpeningTagsEnd(s: State, name: string)
    requires Sound(s)
    ensures name == "td" || name == "th" ==> EndsNearest(s, Implicit(s, name), {"td", "th"}, {"tr", "table"})
    ensures name == "tr" ==> EndsNearest(s, Implicit(s, name), {"tr"}, {"table"})
    ensures name == "li" ==> EndsNearest(s, Implicit(s, name), {"li"}, {"ul", "ol"})
    ensures name == "p" ==> EndsNearest(s, Implicit(s, name), {"p"}, OTHER_BLOCKS)
    ensures name !in {"td", "th", "tr", "li", "p"} ==> Implicit(s, name) == s
  {
    hide EndsNearest, Implicit, Follows, OTHER_BLOCKS;
    if name == "td" || name == "th" {
      CellRule(name);
      OpenEnds(s, name, {"td", "th"}, {"tr", "table"});
    } else if name == "tr" {
      RowRule();
      OpenEnds(s, name, {"tr"}, {"table"});
    } else if name == "li" {
      ItemRule();
      OpenEnds(s, name, {"li"}, {"ul", "ol"});
    } else if name == "p" {
      ParagraphRule();
      OpenEnds(s, name, {"p"}, OTHER_BLOCKS);
    } else {
      OtherTagsEndNothing(s, name, |s.stack| - 1);
    }
  }

  lemma {:induction false} OtherTagsEndNothing(s: State, name: string, i: nat)
    requires Sound(s) && i < |s.stack| && name !in {"td", "th", "tr", "li", "p"}
    ensures FindClosed(s, name, i) == 0 && Implicit(s, name) == Cut(s, FindClosed(s, name, |s.stack| - 1))
    ensures i == |s.stack| - 1 ==> Implicit(s, name) == s
    decreases i
  {
    if i > 0 {
      OtherTagsEndNothing(s, name, i - 1);
    }
  }

  // ---- void elements -----------------------------------------------------

  const VOIDS: set<string> :=
    {"area", "base", "br", "col", "embed", "hr", "img", "input", "link", "meta", "param", "source", "track", "wbr"}

  lemma {:induction false} VoidNames(name: string)
    ensures IsVoid(name) <==> name in VOIDS
    ensures "root" !in VOIDS && "" !in VOIDS
  {
  }

  /** Void elements have no children and are never open. */
  ghost predicate VoidsClosed(s: State) {
    && (forall n :: 0 <= n < |s.nodes| && s.nodes[n].tag in VOIDS ==> s.nodes[n].kids == [])
    && (forall i :: 0 <= i < |s.stack| ==> s.stack[i] < |s.nodes| && s.nodes[s.stack[i]].tag !in VOIDS)
  }

  lemma {:induction false} AttachVoids(s: State, tag: string, text: string)
    requires Sound(s) && VoidsClosed(s)
    ensures VoidsClosed(Attach(s, tag, text))
  {
    hide VOIDS, Attach;
    var t := Attach(s, tag, text);
    forall n | 0 <= n < |t.nodes| && t.nodes[n].tag in VOIDS ensures t.nodes[n].kids == [] {
      AttachNodes(s, tag, text, n);
    }
    AttachTop(s, tag, text);
    forall i | 0 <= i < |t.stack| ensures t.nodes[t.stack[i]].tag !in VOIDS {
      AttachNodes(s, tag, text, s.stack[i]);
    }
  }

  lemma {:induction false} StepVoids(s: State, e: Event)
    requires Sound(s) && VoidsClosed(s)
    ensures VoidsClosed(Step(true, s, e))
  {
    hide VOIDS, IsVoid, Attach, FindClosed, FindOpen;
    match e
    case Text(raw) =>
      hide Entities.Decode;
      AttachVoids(s, "", Entities.Decode(raw));
    case Close(name) =>
    case Open(name, selfClosing) =>
      var u := Implicit(s, name);
      VoidNames(name);
      AttachVoids(u, name, "");
      AttachTop(u, name, "");
      AttachNodes(u, name, "", |u.nodes|);
  }

  /** In HTML mode, for every event sequence: a node with one of the fourteen void names
      has no children. */
  lemma {:induction false} VoidsHaveNoChildren(events: seq<Event>)
    ensures VoidsClosed(Build(true, events))
    decreases |events|
  {
    hide Step, VOIDS;
    if events == [] {
      VoidNames("");
    } else {
      VoidsHaveNoChildren(events[..|events| - 1]);
      hide VoidsClosed;
      StepVoids(Build(true, events[..|events| - 1]), events[|events| - 1]);
    }
  }

  // ---- other elements ----------------------------------------------------

  /** Opening tags that are neither void nor end anything. */
  predicate PlainTag(e: Event) {
    e.Open? ==> e.name !in {"td", "th", "tr", "li", "p"} && e.name !in VOIDS
  }

  /** With such tags HTML mode builds what XML mode builds. */
  lemma {:induction false} PlainTagsBuildAlike(events: seq<Event>)
    requires forall e :: e in events ==> PlainTag(e)
    ensures Build(true, events) == Build(false, events)
    decreases |events|
  {
    if events != [] {
      var before, e := events[..|events| - 1], events[|events| - 1];
      PlainTagsBuildAlike(before);
      assert e in events;
      hide Attach, AddText, AddClose, IsVoid, VOIDS;
      if e.Open? {
        var s := Build(false, before);
        OtherTagsEndNothing(s, e.name, |s.stack| - 1);
        VoidNames(e.name);
      }
    }
  }
}
