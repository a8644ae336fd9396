/** The tolerant element tree (`TreeBuilder`, src/mapping/markup_tree.cpp). Nodes
    live in an arena in creation order; the stack holds the open elements. */
module MarkupTree {
  import opened Common
  import Entities

  const MAX_DEPTH: nat := 128  // kMaxMarkupDepth

  /** A text node has no tag. `parent` is kept for the statements below: the
      builder never reads it. */
  datatype Node = Node(tag: string, text: string, kids: seq<nat>, parent: nat)
  datatype State = State(nodes: seq<Node>, stack: seq<nat>)
  datatype Event = Text(raw: string) | Open(name: string, selfClosing: bool) | Close(name: string)

  predicate IsVoid(name: string) {
    name in ["area", "base", "br", "col", "embed", "hr", "img", "input", "link", "meta", "param", "source", "track",
             "wbr"]
  }

  predicate IsBlock(name: string) {
    name in ["div", "p", "h1", "h2", "h3", "h4", "h5", "h6", "table", "ul", "ol", "li", "pre", "figure", "form",
             "caption", "figcaption", "hr"]
  }

  /** What an open element `tag` means to an opening `name`: it is closed by it, it
      bounds the search for one to close, or it is passed over. */
  datatype Role = Closed | Boundary | Passed

  function RoleOf(name: string, tag: string): Role {
    if name == "td" || name == "th" then
      if tag == "td" || tag == "th" then Closed else if tag == "tr" || tag == "table" then Boundary else Passed
    else if name == "tr" then if tag == "tr" then Closed else if tag == "table" then Boundary else Passed
    else if name == "li" then if tag == "li" then Closed else if tag == "ul" || tag == "ol" then Boundary else Passed
    else if name == "p" then if tag == "p" then Closed else if IsBlock(tag) then Boundary else Passed
    else Passed
  }

  // ---- the builder as functions ------------------------------------------

  function Empty(): State {
    State([Node("root", "", [], 0)], [0])
  }

  /** A stack of arena indices above the root. */
  predicate Sound(s: State) {
    s.stack != [] && forall i :: 0 <= i < |s.stack| ==> s.stack[i] < |s.nodes|
  }

  function Top(s: State): nat
    requires Sound(s)
  {
    s.stack[|s.stack| - 1]
  }

  function Attach(s: State, tag: string, text: string): (t: State)
    requires Sound(s)
    ensures Sound(t) && |t.nodes| == |s.nodes| + 1
  {
    var top := Top(s);
    State(s.nodes[top := s.nodes[top].(kids := s.nodes[top].kids + [|s.nodes|])] + [Node(tag, text, [], top)], s.stack)
  }

  /** The text node new text would extend. */
  function LastText(s: State): Option<nat>
    requires Sound(s)
  {
    var kids := s.nodes[Top(s)].kids;
    if kids != [] && kids[|kids| - 1] < |s.nodes| && s.nodes[kids[|kids| - 1]].tag == "" then Some(kids[|kids| - 1])
    else None
  }

  function AddText(s: State, raw: string): (t: State)
    requires Sound(s)
    ensures Sound(t)
  {
    if raw == "" then s
    else
      match LastText(s)
      case Some(n) => s.(nodes := s.nodes[n := s.nodes[n].(text := s.nodes[n].text + Entities.Decode(raw))])
      case None => Attach(s, "", Entities.Decode(raw))
  }

  /** The highest stack position up to `i` that holds `name`, or the root's. */
  function FindOpen(s: State, name: string, i: nat): (j: nat)
    requires Sound(s) && i < |s.stack|
    ensures j <= i
  {
    if i == 0 || s.nodes[s.stack[i]].tag == name then i else FindOpen(s, name, i - 1)
  }

  function Cut(s: State, j: nat): State
    requires Sound(s)
  {
    if 0 < j < |s.stack| then s.(stack := s.stack[..j]) else s
  }

  function AddClose(s: State, name: string): (t: State)
    requires Sound(s)
    ensures Sound(t)
  {
    Cut(s, FindOpen(s, name, |s.stack| - 1))
  }

  /** The stack position an opening `name` closes, or the root's. */
  function FindClosed(s: State, name: string, i: nat): (j: nat)
    requires Sound(s) && i < |s.stack|
    ensures j <= i
  {
    if i == 0 then 0
    else
      match RoleOf(name, s.nodes[s.stack[i]].tag)
      case Closed => i
      case Boundary => 0
      case Passed => FindClosed(s, name, i - 1)
  }

  function Implicit(s: State, name: string): (t: State)
    requires Sound(s)
    ensures Sound(t)
  {
    Cut(s, FindClosed(s, name, |s.stack| - 1))
  }

  function AddOpen(html: bool, s: State, name: string, selfClosing: bool): (t: State)
    requires Sound(s)
    ensures Sound(t)
  {
    var u := if html then Implicit(s, name) else s;
    var t := Attach(u, name, "");
    if !(selfClosing || (html && IsVoid(name))) && |u.stack| <= MAX_DEPTH then t.(stack := t.stack + [|u.nodes|]) else t
  }

  function Step(html: bool, s: State, e: Event): (t: State)
    requires Sound(s)
    ensures Sound(t)
  {
    match e
    case Text(raw) => AddText(s, raw)
    case Open(name, selfClosing) => AddOpen(html, s, name, selfClosing)
    case Close(name) => AddClose(s, name)
  }

  function Build(html: bool, events: seq<Event>): (s: State)
    ensures Sound(s)
  {
    if events == [] then Empty() else Step(html, Build(html, events[..|events| - 1]), events[|events| - 1])
  }

  // ---- the builder as the source writes it -------------------------------

  class TreeBuilder {
    const html: bool
    var nodes: seq<Node>
    var stack: seq<nat>

    ghost predicate Valid()
      reads this
    {
      Sound(Value())
    }

    function Value(): State
      reads this
    {
      State(nodes, stack)
    }

    constructor (html: bool)
      ensures this.html == html && Valid() && Value() == Build(html, [])
    {
      this.html := html;
      nodes := [Node("root", "", [], 0)];
      stack := [0];
    }

    method Text(raw: string)
      requires Valid()
      modifies this
      ensures Valid() && Value() == AddText(old(Value()), raw)
    {
      if raw == "" {
        return;
      }
      var top := stack[|stack| - 1];
      var kids := nodes[top].kids;
      var decoded := Entities.DecodeEntities(raw);
      if kids != [] && kids[|kids| - 1] < |nodes| && nodes[kids[|kids| - 1]].tag == "" {
        var last := kids[|kids| - 1];
        nodes := nodes[last := nodes[last].(text := nodes[last].text + decoded)];
        return;
      }
      nodes := nodes[top := nodes[top].(kids := kids + [|nodes|])] + [Node("", decoded, [], top)];
    }

    method Open(name: string, selfClosing: bool)
      requires Valid()
      modifies this
      ensures Valid() && Value() == AddOpen(html, old(Value()), name, selfClosing)
    {
      if html {
        ImplicitClose(name);
      }
      var top, added := stack[|stack| - 1], |nodes|;
      nodes := nodes[top := nodes[top].(kids := nodes[top].kids + [added])] + [Node(name, "", [], top)];
      var empty := selfClosing || (html && IsVoid(name));
      if !empty && |stack| <= MAX_DEPTH {
        stack := stack + [added];
      }
    }

    method Close(name: string)
      requires Valid()
      modifies this
      ensures Valid() && Value() == AddClose(old(Value()), name)
    {
      var i := |stack| - 1;
      while i > 0
        invariant 0 <= i < |stack| && nodes == old(nodes) && stack == old(stack)
        invariant FindOpen(Value(), name, |stack| - 1) == FindOpen(Value(), name, i)
      {
        if nodes[stack[i]].tag == name {
          stack := stack[..i];
          return;
        }
        i := i - 1;
      }
    }

    method ImplicitClose(name: string)
      requires Valid()
      modifies this
      ensures Valid() && Value() == Implicit(old(Value()), name)
    {
      var i := |stack| - 1;
      while i > 0
        invariant 0 <= i < |stack| && nodes == old(nodes) && stack == old(stack)
        invariant FindClosed(Value(), name, |stack| - 1) == FindClosed(Value(), name, i)
      {
        var role := RoleOf(name, nodes[stack[i]].tag);
        if role == Closed {
          stack := stack[..i];
          return;
        }
        if role == Boundary {
          return;
        }
        i := i - 1;
      }
    }
  }

  // ---- what closing closes -----------------------------------------------

  /** A closing tag ends the innermost open element of its name and everything in
      it; without one it changes nothing. */
  lemma {:induction false} CloseEndsInnermost(s: State, name: string)
    requires Sound(s)
    ensures var t := AddClose(s, name);
            && t.nodes == s.nodes && t.stack <= s.stack
            && (forall k :: |t.stack| < k < |s.stack| ==> s.nodes[s.stack[k]].tag != name)
            && (if |t.stack| < |s.stack| then s.nodes[s.stack[|t.stack|]].tag == name
                else forall k :: 0 < k < |s.stack| ==> s.nodes[s.stack[k]].tag != name)
  {
    FindOpenFinds(s, name, |s.stack| - 1);
  }

  lemma {:induction false} FindOpenFinds(s: State, name: string, i: nat)
    requires Sound(s) && i < |s.stack|
    ensures var j := FindOpen(s, name, i);
            (j > 0 ==> s.nodes[s.stack[j]].tag == name) && forall k :: j < k <= i ==> s.nodes[s.stack[k]].tag != name
    decreases i
  {
    if i > 0 {
      FindOpenFinds(s, name, i - 1);
    }
  }

  /** An opening tag ends the nearest open element it closes, and only if no
      boundary lies above that one. */
  lemma {:induction false} OpenEndsNearest(s: State, name: string)
    requires Sound(s)
    ensures var t := Implicit(s, name);
            && t.nodes == s.nodes && t.stack <= s.stack
            && (|t.stack| < |s.stack| ==>
                  && RoleOf(name, s.nodes[s.stack[|t.stack|]].tag) == Closed
                  && forall k :: |t.stack| < k < |s.stack| ==> RoleOf(name, s.nodes[s.stack[k]].tag) == Passed)
            && (|t.stack| == |s.stack| ==>
                  forall k :: 0 < k < |s.stack| && RoleOf(name, s.nodes[s.stack[k]].tag) == Closed ==>
                    exists b :: k < b < |s.stack| && RoleOf(name, s.nodes[s.stack[b]].tag) == Boundary)
  {
    hide RoleOf;
    FindClosedScans(s, name, |s.stack| - 1);
  }

  lemma {:induction false} FindClosedScans(s: State, name: string, i: nat)
    requires Sound(s) && i < |s.stack|
    ensures var j := FindClosed(s, name, i);
            if j > 0 then
              && RoleOf(name, s.nodes[s.stack[j]].tag) == Closed
              && forall k :: j < k <= i ==> RoleOf(name, s.nodes[s.stack[k]].tag) == Passed
            else
              forall k :: 0 < k <= i && RoleOf(name, s.nodes[s.stack[k]].tag) == Closed ==>
                exists b :: k < b <= i && RoleOf(name, s.nodes[s.stack[b]].tag) == Boundary
    decreases i
  {
    hide RoleOf;
    if i > 0 {
      FindClosedScans(s, name, i - 1);
    }
  }

  // ---- the shape of the arena --------------------------------------------

  /** Children come after their parent, name it, and are listed in order. */
  ghost predicate KidsOk(nodes: seq<Node>) {
    && (forall n, k :: 0 <= n < |nodes| && 0 <= k < |nodes[n].kids| ==>
          n < nodes[n].kids[k] < |nodes| && nodes[nodes[n].kids[k]].parent == n)
    && (forall n, j, k :: 0 <= n < |nodes| && 0 <= j < k < |nodes[n].kids| ==> nodes[n].kids[j] < nodes[n].kids[k])
  }

  /** Every node but the root is listed by its parent. */
  ghost predicate Owned(nodes: seq<Node>) {
    forall m :: 0 < m < |nodes| ==> nodes[m].parent < m && m in nodes[nodes[m].parent].kids
  }

  ghost predicate LastKid(nodes: seq<Node>, n: nat, m: nat) {
    n < |nodes| && nodes[n].kids != [] && nodes[n].kids[|nodes[n].kids| - 1] == m
  }

  /** Each stack entry is the last child of the one below; the first is the root. */
  ghost predicate Spine(s: State) {
    && Sound(s) && s.stack[0] == 0
    && (forall i :: 0 < i < |s.stack| ==> LastKid(s.nodes, s.stack[i - 1], s.stack[i]))
    && (forall i :: 0 <= i < |s.stack| ==> s.nodes[s.stack[i]].tag != "")
  }

  /** Where the subtree of a node ends in the arena. */
  function End(nodes: seq<Node>, n: nat): nat
    decreases |nodes| - n
  {
    if n < |nodes| && nodes[n].kids != [] && n < nodes[n].kids[|nodes[n].kids| - 1] < |nodes|
    then End(nodes, nodes[n].kids[|nodes[n].kids| - 1])
    else n + 1
  }

  /** The arena lists the tree in document order: the first child follows its
      parent, and each further child follows the subtree before it. */
  ghost predicate InOrder(nodes: seq<Node>) {
    && (forall n :: 0 <= n < |nodes| && nodes[n].kids != [] ==> nodes[n].kids[0] == n + 1)
    && (forall n, k :: 0 <= n < |nodes| && 0 < k < |nodes[n].kids| ==>
          nodes[n].kids[k] == End(nodes, nodes[n].kids[k - 1]))
  }

  /** Text nodes are leaves and elements hold no text of their own. */
  ghost predicate Leaves(nodes: seq<Node>) {
    forall n :: 0 <= n < |nodes| ==>
      (nodes[n].tag == "" ==> nodes[n].kids == []) && (nodes[n].tag != "" ==> nodes[n].text == "")
  }

  ghost predicate TextsApart(nodes: seq<Node>) {
    forall n, k :: 0 <= n < |nodes| && 0 < k < |nodes[n].kids| ==>
      nodes[n].kids[k] < |nodes| && nodes[n].kids[k - 1] < |nodes| ==>
        nodes[nodes[n].kids[k]].tag != "" || nodes[nodes[n].kids[k - 1]].tag != ""
  }

  ghost predicate Shaped(s: State) {
    KidsOk(s.nodes) && Owned(s.nodes) && Spine(s) && InOrder(s.nodes) && Leaves(s.nodes) && TextsApart(s.nodes) &&
    End(s.nodes, Top(s)) == |s.nodes|
  }

  // ---- stack facts -------------------------------------------------------

  lemma {:induction false} StackRises(s: State, i: nat, j: nat)
    requires KidsOk(s.nodes) && Spine(s) && i < j < |s.stack|
    ensures s.stack[i] < s.stack[j]
    decreases j
  {
    assert LastKid(s.nodes, s.stack[j - 1], s.stack[j]);
    var p := s.stack[j - 1];
    assert p < s.nodes[p].kids[|s.nodes[p].kids| - 1];
    if i < j - 1 {
      StackRises(s, i, j - 1);
    }
  }

  lemma {:induction false} StackEnds(s: State, i: nat)
    requires KidsOk(s.nodes) && Spine(s) && End(s.nodes, Top(s)) == |s.nodes| && i < |s.stack|
    ensures End(s.nodes, s.stack[i]) == |s.nodes|
    decreases |s.stack| - i
  {
    if i < |s.stack| - 1 {
      StackEnds(s, i + 1);
      assert LastKid(s.nodes, s.stack[i], s.stack[i + 1]);
    }
  }

  /** A child on the stack is its parent's last, and the parent is right below. */
  lemma {:induction false} StackedKid(s: State, n: nat, k: nat)
    requires KidsOk(s.nodes) && Spine(s) && n < |s.nodes| && k < |s.nodes[n].kids| && s.nodes[n].kids[k] in s.stack
    ensures k == |s.nodes[n].kids| - 1 && n in s.stack && n != Top(s)
  {
    var m := s.nodes[n].kids[k];
    var i :| 0 <= i < |s.stack| && s.stack[i] == m;
    assert i > 0;
    assert LastKid(s.nodes, s.stack[i - 1], m);
    var p := s.stack[i - 1];
    assert s.nodes[s.nodes[p].kids[|s.nodes[p].kids| - 1]].parent == p;
    assert p == n;
    StackRises(s, i - 1, |s.stack| - 1);
  }

  // ---- attaching keeps the shape -----------------------------------------

  /** The new arena, node by node. */
  lemma {:induction false} AttachNodes(s: State, tag: string, text: string, n: nat)
    requires Sound(s) && n <= |s.nodes|
    ensures var t, m := Attach(s, tag, text), |s.nodes|;
            t.nodes[n] == if n == m then Node(tag, text, [], Top(s))
                          else if n == Top(s) then s.nodes[n].(kids := s.nodes[n].kids + [m]) else s.nodes[n]
  {
  }

  lemma {:induction false} AttachEnd(s: State, tag: string, text: string, n: nat)
    requires KidsOk(s.nodes) && Spine(s) && n < |s.nodes|
    ensures var t, m := Attach(s, tag, text), |s.nodes|;
            End(t.nodes, n) == (if n in s.stack then m + 1 else End(s.nodes, n)) && End(t.nodes, m) == m + 1
    decreases |s.nodes| - n
  {
    SpineSound(s);
    hide KidsOk, Spine, Attach;
    var t, m := Attach(s, tag, text), |s.nodes|;
    AttachNodes(s, tag, text, n);
    AttachNodes(s, tag, text, m);
    if n != Top(s) {
      LastOnStack(s, n);
      if s.nodes[n].kids != [] {
        KidBounds(s.nodes, n, |s.nodes[n].kids| - 1);
        AttachEnd(s, tag, text, s.nodes[n].kids[|s.nodes[n].kids| - 1]);
      }
    }
  }

  lemma {:induction false} KidBounds(nodes: seq<Node>, n: nat, k: nat)
    requires KidsOk(nodes) && n < |nodes| && k < |nodes[n].kids|
    ensures n < nodes[n].kids[k] < |nodes| && nodes[nodes[n].kids[k]].parent == n
  {
  }

  /** Below the top, a node is on the stack exactly when its last child is. */
  lemma {:induction false} LastOnStack(s: State, n: nat)
    requires KidsOk(s.nodes) && Spine(s) && n < |s.nodes| && n != Top(s)
    ensures n in s.stack ==> s.nodes[n].kids != []
    ensures s.nodes[n].kids != [] ==> (n in s.stack <==> s.nodes[n].kids[|s.nodes[n].kids| - 1] in s.stack)
  {
    if n in s.stack {
      var i :| 0 <= i < |s.stack| && s.stack[i] == n;
      assert LastKid(s.nodes, s.stack[i], s.stack[i + 1]);
    } else if s.nodes[n].kids != [] && s.nodes[n].kids[|s.nodes[n].kids| - 1] in s.stack {
      StackedKid(s, n, |s.nodes[n].kids| - 1);
    }
  }

  lemma {:induction false} AttachKids(s: State, tag: string, text: string)
    requires KidsOk(s.nodes) && Sound(s)
    ensures KidsOk(Attach(s, tag, text).nodes)
  {
    hide Attach;
    var t, m := Attach(s, tag, text), |s.nodes|;
    forall n, k | 0 <= n < |t.nodes| && 0 <= k < |t.nodes[n].kids|
      ensures n < t.nodes[n].kids[k] < |t.nodes| && t.nodes[t.nodes[n].kids[k]].parent == n
      ensures forall j :: 0 <= j < k ==> t.nodes[n].kids[j] < t.nodes[n].kids[k]
    {
      AttachNodes(s, tag, text, n);
      AttachNodes(s, tag, text, m);
      if k < |s.nodes[n].kids| {
        KidBounds(s.nodes, n, k);
        AttachNodes(s, tag, text, s.nodes[n].kids[k]);
      }
    }
  }

  lemma {:induction false} AttachOwned(s: State, tag: string, text: string)
    requires Owned(s.nodes) && Sound(s)
    ensures Owned(Attach(s, tag, text).nodes)
  {
    hide Attach;
    var t := Attach(s, tag, text);
    forall p | 0 < p < |t.nodes| ensures t.nodes[p].parent < p && p in t.nodes[t.nodes[p].parent].kids {
      AttachNodes(s, tag, text, p);
      AttachNodes(s, tag, text, t.nodes[p].parent);
      if p < |s.nodes| {
        assert p in s.nodes[s.nodes[p].parent].kids;
      }
    }
  }

  lemma {:induction false} AttachInOrder(s: State, tag: string, text: string)
    requires KidsOk(s.nodes) && Spine(s) && InOrder(s.nodes) && End(s.nodes, Top(s)) == |s.nodes|
    ensures InOrder(Attach(s, tag, text).nodes)
  {
    SpineSound(s);
    hide End, Spine, KidsOk;
    var t, m := Attach(s, tag, text), |s.nodes|;
    forall n | 0 <= n < |t.nodes| && t.nodes[n].kids != [] ensures t.nodes[n].kids[0] == n + 1 {
      if n == Top(s) && s.nodes[n].kids == [] {
        LeafEnds(s.nodes, n);
      }
    }
    forall n, k | 0 <= n < |t.nodes| && 0 < k < |t.nodes[n].kids|
      ensures t.nodes[n].kids[k] == End(t.nodes, t.nodes[n].kids[k - 1])
    {
      AttachNodes(s, tag, text, n);
      KidBounds(s.nodes, n, k - 1);
      var before := s.nodes[n].kids[k - 1];
      AttachEnd(s, tag, text, before);
      if before in s.stack {
        StackedKid(s, n, k - 1);
      }
      if k == |s.nodes[n].kids| {
        LastEnds(s.nodes, n);
      }
    }
  }

  lemma {:induction false} LeafEnds(nodes: seq<Node>, n: nat)
    requires n < |nodes| && nodes[n].kids == []
    ensures End(nodes, n) == n + 1
  {
  }

  lemma {:induction false} LastEnds(nodes: seq<Node>, n: nat)
    requires KidsOk(nodes) && n < |nodes| && nodes[n].kids != []
    ensures End(nodes, n) == End(nodes, nodes[n].kids[|nodes[n].kids| - 1])
  {
    KidBounds(nodes, n, |nodes[n].kids| - 1);
  }

  lemma {:induction false} AttachSpine(s: State, tag: string, text: string)
    requires Spine(s) && KidsOk(s.nodes)
    ensures Spine(Attach(s, tag, text))
  {
    var t := Attach(s, tag, text);
    forall i | 0 < i < |t.stack| ensures LastKid(t.nodes, t.stack[i - 1], t.stack[i]) {
      assert LastKid(s.nodes, s.stack[i - 1], s.stack[i]);
      StackRises(s, i - 1, |s.stack| - 1);
    }
  }

  lemma {:induction false} AttachLeaves(s: State, tag: string, text: string)
    requires Leaves(s.nodes) && TextsApart(s.nodes) && Spine(s) && KidsOk(s.nodes) && (tag == "" || text == "")
    requires tag == "" ==> LastText(s).None?
    ensures Leaves(Attach(s, tag, text).nodes) && TextsApart(Attach(s, tag, text).nodes)
  {
    var t, m := Attach(s, tag, text), |s.nodes|;
    assert s.nodes[Top(s)].tag != "";
    forall n, k | 0 <= n < |t.nodes| && 0 < k < |t.nodes[n].kids| && t.nodes[n].kids[k] < |t.nodes| &&
      t.nodes[n].kids[k - 1] < |t.nodes|
      ensures t.nodes[t.nodes[n].kids[k]].tag != "" || t.nodes[t.nodes[n].kids[k - 1]].tag != ""
    {
      AttachNodes(s, tag, text, n);
      KidBounds(s.nodes, n, k - 1);
      AttachNodes(s, tag, text, t.nodes[n].kids[k - 1]);
      AttachNodes(s, tag, text, t.nodes[n].kids[k]);
      if k < |s.nodes[n].kids| {
        KidBounds(s.nodes, n, k);
        assert s.nodes[s.nodes[n].kids[k]].tag != "" || s.nodes[s.nodes[n].kids[k - 1]].tag != "";
      }
    }
  }

  lemma {:induction false} AttachShaped(s: State, tag: string, text: string)
    requires Shaped(s) && (tag == "" || text == "") && (tag == "" ==> LastText(s).None?)
    ensures Shaped(Attach(s, tag, text)) && End(Attach(s, tag, text).nodes, |s.nodes|) == |s.nodes| + 1
    ensures LastKid(Attach(s, tag, text).nodes, Top(s), |s.nodes|)
  {
    hide KidsOk, Owned, Spine, InOrder, Leaves, TextsApart, End, LastText;
    SpineSound(s);
    AttachKids(s, tag, text);
    AttachOwned(s, tag, text);
    AttachInOrder(s, tag, text);
    AttachSpine(s, tag, text);
    AttachLeaves(s, tag, text);
    AttachEnd(s, tag, text, Top(s));
  }

  lemma {:induction false} SpineSound(s: State)
    requires Spine(s)
    ensures Sound(s) && |s.nodes| > 0
  {
  }

  lemma {:induction false} CutShaped(s: State, j: nat)
    requires Shaped(s)
    ensures Shaped(Cut(s, j))
  {
    if 0 < j < |s.stack| {
      StackEnds(s, j - 1);
      CutSpine(s, j);
    }
    hide KidsOk, Owned, Spine, InOrder, Leaves, TextsApart, End;
  }

  lemma {:induction false} CutSpine(s: State, j: nat)
    requires Spine(s) && 0 < j < |s.stack|
    ensures Spine(Cut(s, j))
  {
    var t := Cut(s, j);
    forall i | 0 < i < |t.stack| ensures LastKid(t.nodes, t.stack[i - 1], t.stack[i]) {
      assert LastKid(s.nodes, s.stack[i - 1], s.stack[i]);
    }
  }

  lemma {:induction false} SameKidsSameEnd(a: seq<Node>, b: seq<Node>, n: nat)
    requires |a| == |b| && forall k :: 0 <= k < |a| ==> a[k].kids == b[k].kids
    ensures End(a, n) == End(b, n)
    decreases |a| - n
  {
    if n < |a| && a[n].kids != [] && n < a[n].kids[|a[n].kids| - 1] < |a| {
      SameKidsSameEnd(a, b, a[n].kids[|a[n].kids| - 1]);
    }
  }

  /** Arenas that differ only in text. */
  ghost predicate AlikeButText(a: seq<Node>, b: seq<Node>) {
    |a| == |b| && forall k :: 0 <= k < |a| ==>
      a[k].kids == b[k].kids && a[k].tag == b[k].tag && a[k].parent == b[k].parent
  }

  lemma {:induction false} AlikeSpine(a: seq<Node>, b: seq<Node>, stack: seq<nat>)
    requires AlikeButText(a, b) && Spine(State(a, stack))
    ensures Spine(State(b, stack))
  {
    forall i | 0 < i < |stack| ensures LastKid(b, stack[i - 1], stack[i]) {
      assert LastKid(a, stack[i - 1], stack[i]);
    }
  }

  lemma {:induction false} AlikeKids(a: seq<Node>, b: seq<Node>)
    requires AlikeButText(a, b) && KidsOk(a)
    ensures KidsOk(b)
  {
    forall n, k | 0 <= n < |b| && 0 <= k < |b[n].kids| ensures n < b[n].kids[k] < |b| && b[b[n].kids[k]].parent == n {
      KidBounds(a, n, k);
    }
  }

  lemma {:induction false} AlikeEnd(a: seq<Node>, b: seq<Node>, n: nat)
    requires AlikeButText(a, b)
    ensures End(a, n) == End(b, n)
  {
    SameKidsSameEnd(a, b, n);
  }

  lemma {:induction false} AlikeOrder(a: seq<Node>, b: seq<Node>)
    requires AlikeButText(a, b) && InOrder(a) && TextsApart(a) && Owned(a)
    ensures InOrder(b) && TextsApart(b) && Owned(b)
  {
    hide End;
    forall n: nat ensures End(a, n) == End(b, n) {
      SameKidsSameEnd(a, b, n);
    }
    forall n, k | 0 <= n < |b| && 0 < k < |b[n].kids| ensures b[n].kids[k] == End(b, b[n].kids[k - 1]) {
      assert a[n].kids[k] == End(a, a[n].kids[k - 1]);
    }
  }

  lemma {:induction false} ExtendAlike(nodes: seq<Node>, n: nat, more: string)
    requires Leaves(nodes) && n < |nodes| && nodes[n].tag == ""
    ensures var after := nodes[n := nodes[n].(text := nodes[n].text + more)];
            Leaves(after) && AlikeButText(nodes, after)
  {
  }

  lemma {:induction false} ExtendShaped(s: State, n: nat, more: string)
    requires Shaped(s) && n < |s.nodes| && s.nodes[n].tag == ""
    ensures Shaped(s.(nodes := s.nodes[n := s.nodes[n].(text := s.nodes[n].text + more)]))
  {
    hide KidsOk, Owned, Spine, InOrder, Leaves, TextsApart, End, AlikeButText;
    var t := s.(nodes := s.nodes[n := s.nodes[n].(text := s.nodes[n].text + more)]);
    ExtendAlike(s.nodes, n, more);
    AlikeSpine(s.nodes, t.nodes, s.stack);
    AlikeKids(s.nodes, t.nodes);
    AlikeOrder(s.nodes, t.nodes);
    SpineSound(t);
    AlikeEnd(s.nodes, t.nodes, Top(s));
  }

  lemma {:induction false} PushShaped(s: State, m: nat)
    requires Shaped(s) && LastKid(s.nodes, Top(s), m) && m < |s.nodes| && s.nodes[m].tag != "" &&
             End(s.nodes, m) == |s.nodes|
    ensures Shaped(s.(stack := s.stack + [m]))
  {
    hide KidsOk, Owned, InOrder, Leaves, TextsApart, End;
    var t := s.(stack := s.stack + [m]);
    forall i | 0 < i < |t.stack| ensures LastKid(t.nodes, t.stack[i - 1], t.stack[i]) {
      if i < |s.stack| {
        assert LastKid(s.nodes, s.stack[i - 1], s.stack[i]);
      }
    }
  }

  /** Tags have names. */
  predicate Proper(e: Event) {
    e.Open? ==> e.name != ""
  }

  lemma {:induction false} StepShaped(html: bool, s: State, e: Event)
    requires Shaped(s) && Proper(e)
    ensures Shaped(Step(html, s, e))
  {
    hide Shaped, Attach, Implicit, FindOpen, FindClosed, Entities.Decode;
    ShapedSound(s);
    match e
    case Text(raw) =>
      if LastText(s).Some? {
        ExtendShaped(s, LastText(s).value, Entities.Decode(raw));
      } else {
        AttachShaped(s, "", Entities.Decode(raw));
      }
    case Close(name) =>
      CutShaped(s, FindOpen(s, name, |s.stack| - 1));
    case Open(name, selfClosing) =>
      var u := if html then Implicit(s, name) else s;
      ImplicitShaped(s, name);
      ShapedSound(u);
      AttachShaped(u, name, "");
      AttachNodes(u, name, "", |u.nodes|);
      var t := Attach(u, name, "");
      AttachTop(u, name, "");
      if !(selfClosing || (html && IsVoid(name))) && |u.stack| <= MAX_DEPTH {
        PushShaped(t, |u.nodes|);
      }
  }

  lemma {:induction false} ShapedSound(s: State)
    requires Shaped(s)
    ensures Sound(s) && |s.nodes| > 0
  {
  }

  lemma {:induction false} AttachTop(s: State, tag: string, text: string)
    requires Sound(s)
    ensures Attach(s, tag, text).stack == s.stack && Top(Attach(s, tag, text)) == Top(s)
  {
  }

  lemma {:induction false} ImplicitShaped(s: State, name: string)
    requires Shaped(s)
    ensures Shaped(Implicit(s, name))
  {
    ShapedSound(s);
    hide Shaped;
    CutShaped(s, FindClosed(s, name, |s.stack| - 1));
  }

  lemma {:induction false} EmptyShaped()
    ensures Shaped(Empty())
  {
  }

  lemma {:induction false} BuildShaped(html: bool, events: seq<Event>)
    requires forall e :: e in events ==> Proper(e)
    ensures Shaped(Build(html, events))
    decreases |events|
  {
    hide Shaped, Step;
    EmptyShaped();
    if events != [] {
      BuildShaped(html, events[..|events| - 1]);
      StepShaped(html, Build(html, events[..|events| - 1]), events[|events| - 1]);
    }
  }

  // ---- no text is lost or moved ------------------------------------------

  /** The text under a node, read in document order. */
  function Shown(nodes: seq<Node>, n: nat): string
    requires n < |nodes|
    decreases |nodes| - n, 1, 0
  {
    nodes[n].text + KidsShown(nodes, n, |nodes[n].kids|)
  }

  function KidsShown(nodes: seq<Node>, n: nat, k: nat): string
    requires n < |nodes| && k <= |nodes[n].kids|
    decreases |nodes| - n, 0, k
  {
    if k == 0 then ""
    else
      var kid := nodes[n].kids[k - 1];
      KidsShown(nodes, n, k - 1) + if n < kid < |nodes| then Shown(nodes, kid) else ""
  }

  /** The text of nodes a .. b - 1 in arena order. */
  function Slab(nodes: seq<Node>, a: nat, b: nat): string
    requires b <= |nodes|
  {
    if a >= b then "" else Slab(nodes, a, b - 1) + nodes[b - 1].text
  }

  lemma {:induction false} SlabSplit(nodes: seq<Node>, a: nat, b: nat, c: nat)
    requires a <= b <= c <= |nodes|
    ensures Slab(nodes, a, c) == Slab(nodes, a, b) + Slab(nodes, b, c)
    decreases c
  {
    if b < c {
      SlabSplit(nodes, a, b, c - 1);
    }
  }

  lemma {:induction false} SlabSame(a: seq<Node>, b: seq<Node>, n: nat)
    requires n <= |a| && n <= |b| && forall k :: 0 <= k < n ==> a[k].text == b[k].text
    ensures Slab(a, 0, n) == Slab(b, 0, n)
    decreases n
  {
    if n > 0 {
      SlabSame(a, b, n - 1);
    }
  }

  /** In an ordered arena a subtree shows exactly its slab. */
  lemma {:induction false} ShownIsSlab(nodes: seq<Node>, n: nat)
    requires KidsOk(nodes) && InOrder(nodes) && n < |nodes|
    ensures n < End(nodes, n) <= |nodes| && Shown(nodes, n) == Slab(nodes, n, End(nodes, n))
    decreases |nodes| - n, 1, 0
  {
    hide KidsOk, InOrder, End;
    var k := |nodes[n].kids|;
    assert Slab(nodes, n, n) == "" && Slab(nodes, n, n + 1) == nodes[n].text;
    if k == 0 {
      LeafEnds(nodes, n);
    } else {
      KidsShownAreSlab(nodes, n, k);
      LastEnds(nodes, n);
      SlabSplit(nodes, n, n + 1, End(nodes, n));
    }
  }

  lemma {:induction false} KidsShownAreSlab(nodes: seq<Node>, n: nat, k: nat)
    requires KidsOk(nodes) && InOrder(nodes) && n < |nodes| && 0 < k <= |nodes[n].kids|
    ensures n + 1 < End(nodes, nodes[n].kids[k - 1]) <= |nodes|
    ensures KidsShown(nodes, n, k) == Slab(nodes, n + 1, End(nodes, nodes[n].kids[k - 1]))
    decreases |nodes| - n, 0, k
  {
    hide KidsOk, InOrder, End, Slab;
    var kid := nodes[n].kids[k - 1];
    KidBounds(nodes, n, k - 1);
    ShownIsSlab(nodes, kid);
    KidStarts(nodes, n, k - 1);
    if k == 1 {
      assert KidsShown(nodes, n, 1) == "" + Shown(nodes, kid);
    } else {
      KidsShownAreSlab(nodes, n, k - 1);
      SlabSplit(nodes, n + 1, kid, End(nodes, kid));
    }
  }

  lemma {:induction false} KidStarts(nodes: seq<Node>, n: nat, k: nat)
    requires InOrder(nodes) && n < |nodes| && k < |nodes[n].kids|
    ensures nodes[n].kids[k] == if k == 0 then n + 1 else End(nodes, nodes[n].kids[k - 1])
  {
  }

  function EventText(e: Event): string {
    if e.Text? then Entities.Decode(e.raw) else ""
  }

  function TextOf(events: seq<Event>): string {
    if events == [] then "" else TextOf(events[..|events| - 1]) + EventText(events[|events| - 1])
  }

  lemma {:induction false} AttachSlab(s: State, tag: string, text: string)
    requires Sound(s)
    ensures var t := Attach(s, tag, text); Slab(t.nodes, 0, |t.nodes|) == Slab(s.nodes, 0, |s.nodes|) + text
  {
    SlabSame(s.nodes, Attach(s, tag, text).nodes, |s.nodes|);
  }

  /** The text node that new text extends is the last node of the arena. */
  lemma {:induction false} LastTextIsLast(s: State, n: nat)
    requires Shaped(s) && LastText(s) == Some(n)
    ensures n == |s.nodes| - 1
  {
    SpineSound(s);
    hide InOrder, Owned, TextsApart, End, Spine;
    LastEnds(s.nodes, Top(s));
    assert s.nodes[n].kids == [];
    LeafEnds(s.nodes, n);
  }

  lemma {:induction false} ExtendSlab(nodes: seq<Node>, more: string)
    requires nodes != []
    ensures var n := |nodes| - 1;
            var t := nodes[n := nodes[n].(text := nodes[n].text + more)];
            Slab(t, 0, |t|) == Slab(nodes, 0, |nodes|) + more
  {
    var n := |nodes| - 1;
    var t := nodes[n := nodes[n].(text := nodes[n].text + more)];
    SlabSame(nodes, t, n);
    assert Slab(nodes, 0, n) + nodes[n].text + more == Slab(nodes, 0, n) + (nodes[n].text + more);
  }

  lemma {:induction false} AddTextText(s: State, raw: string)
    requires Shaped(s) && Sound(s)
    ensures var t := AddText(s, raw); Slab(t.nodes, 0, |t.nodes|) == Slab(s.nodes, 0, |s.nodes|) + Entities.Decode(raw)
  {
    hide Shaped, Attach, Slab, Entities.Decode, LastText;
    if raw == "" {
      Entities.DecodeNothing(raw);
    } else if LastText(s).Some? {
      LastTextIsLast(s, LastText(s).value);
      ExtendSlab(s.nodes, Entities.Decode(raw));
    } else {
      AttachSlab(s, "", Entities.Decode(raw));
    }
  }

  lemma {:induction false} AddOpenText(html: bool, s: State, name: string, selfClosing: bool)
    requires Sound(s)
    ensures var t := AddOpen(html, s, name, selfClosing); Slab(t.nodes, 0, |t.nodes|) == Slab(s.nodes, 0, |s.nodes|)
  {
    hide Attach, Slab, FindClosed;
    AttachSlab(if html then Implicit(s, name) else s, name, "");
  }

  lemma {:induction false} StepText(html: bool, s: State, e: Event)
    requires Shaped(s)
    ensures var t := Step(html, s, e); Slab(t.nodes, 0, |t.nodes|) == Slab(s.nodes, 0, |s.nodes|) + EventText(e)
  {
    ShapedSound(s);
    hide Shaped, AddText, AddOpen, Slab, Entities.Decode, FindOpen;
    match e
    case Text(raw) => AddTextText(s, raw);
    case Open(name, selfClosing) => AddOpenText(html, s, name, selfClosing);
    case Close(name) =>
  }

  lemma {:induction false} BuildText(html: bool, events: seq<Event>)
    requires forall e :: e in events ==> Proper(e)
    ensures var s := Build(html, events); Slab(s.nodes, 0, |s.nodes|) == TextOf(events)
    decreases |events|
  {
    if events == [] {
      assert Slab(Empty().nodes, 0, 0) == "";
    } else {
      var before := events[..|events| - 1];
      BuildText(html, before);
      BuildShaped(html, before);
      hide Step, Shaped, Slab;
      StepText(html, Build(html, before), events[|events| - 1]);
    }
  }

  /** For every event sequence: the tree, read in document order, shows exactly the
      decoded text of the events in order. */
  lemma {:induction false} TreeShowsTheText(html: bool, events: seq<Event>)
    requires forall e :: e in events ==> Proper(e)
    ensures var s := Build(html, events); |s.nodes| > 0 && Shown(s.nodes, 0) == TextOf(events)
  {
    var s := Build(html, events);
    BuildShaped(html, events);
    BuildText(html, events);
    hide Slab, End;
    StackEnds(s, 0);
    ShownIsSlab(s.nodes, 0);
  }

  // ---- depth -------------------------------------------------------------

  function Depth(nodes: seq<Node>, n: nat): nat {
    if n == 0 || n >= |nodes| || nodes[n].parent >= n then 0 else 1 + Depth(nodes, nodes[n].parent)
  }

  lemma {:induction false} SameParentsSameDepth(a: seq<Node>, b: seq<Node>, n: nat)
    requires n < |a| && n < |b| && forall k :: 0 <= k <= n ==> a[k].parent == b[k].parent
    ensures Depth(a, n) == Depth(b, n)
    decreases n
  {
    if n > 0 && a[n].parent < n {
      SameParentsSameDepth(a, b, a[n].parent);
    }
  }

  ghost predicate Shallow(s: State) {
    && 0 < |s.stack| <= MAX_DEPTH + 1
    && (forall i :: 0 <= i < |s.stack| ==> s.stack[i] < |s.nodes| && Depth(s.nodes, s.stack[i]) == i)
    && (forall n :: 0 <= n < |s.nodes| ==> Depth(s.nodes, n) <= MAX_DEPTH + 1)
  }

  lemma {:induction false} AttachShallow(s: State, tag: string, text: string)
    requires Shallow(s) && Sound(s)
    ensures Shallow(Attach(s, tag, text)) && Depth(Attach(s, tag, text).nodes, |s.nodes|) == |s.stack|
  {
    var t, m := Attach(s, tag, text), |s.nodes|;
    forall n | 0 <= n < m ensures Depth(t.nodes, n) == Depth(s.nodes, n) {
      SameParentsSameDepth(s.nodes, t.nodes, n);
    }
    assert Depth(t.nodes, m) == 1 + Depth(t.nodes, Top(s)) by { hide Depth; DepthOfKid(t.nodes, m); }
  }

  lemma {:induction false} DepthOfKid(nodes: seq<Node>, n: nat)
    requires 0 < n < |nodes| && nodes[n].parent < n
    ensures Depth(nodes, n) == 1 + Depth(nodes, nodes[n].parent)
  {
  }

  lemma {:induction false} StepShallow(html: bool, s: State, e: Event)
    requires Shallow(s) && Sound(s)
    ensures Shallow(Step(html, s, e))
  {
    hide Attach, Entities.Decode, FindOpen, FindClosed, Depth;
    match e
    case Text(raw) =>
      AttachShallow(s, "", Entities.Decode(raw));
      if LastText(s).Some? {
        var n := LastText(s).value;
        ExtendShallow(s, n, s.nodes[n].text + Entities.Decode(raw));
      }
    case Open(name, _) =>
      var u := if html then Implicit(s, name) else s;
      AttachShallow(u, name, "");
      AttachTop(u, name, "");
    case Close(name) =>
  }

  lemma {:induction false} ExtendShallow(s: State, n: nat, text: string)
    requires Shallow(s) && n < |s.nodes|
    ensures Shallow(s.(nodes := s.nodes[n := s.nodes[n].(text := text)]))
  {
    var t := s.nodes[n := s.nodes[n].(text := text)];
    forall k | 0 <= k < |t| ensures Depth(t, k) == Depth(s.nodes, k) {
      SameParentsSameDepth(t, s.nodes, k);
    }
  }

  /** No node lies deeper than the cap by more than one. */
  lemma {:induction false} TreeIsShallow(html: bool, events: seq<Event>)
    ensures Shallow(Build(html, events))
    decreases |events|
  {
    if events != [] {
      hide Shallow, Step;
      TreeIsShallow(html, events[..|events| - 1]);
      StepShallow(html, Build(html, events[..|events| - 1]), events[|events| - 1]);
    }
  }

  // ---- nesting -----------------------------------------------------------

  /** The role, for `name`, of the nearest ancestor of a node that has one. */
  function NearestRole(nodes: seq<Node>, n: nat, name: string): Role {
    if n == 0 || n >= |nodes| || nodes[n].parent >= n then Passed
    else
      var role := RoleOf(name, nodes[nodes[n].parent].tag);
      if role != Passed then role else NearestRole(nodes, nodes[n].parent, name)
  }

  /** The same over the first `i` stack entries. */
  function StackRole(s: State, i: nat, name: string): Role
    requires Sound(s) && i <= |s.stack|
  {
    if i == 0 then Passed
    else
      var role := RoleOf(name, s.nodes[s.stack[i - 1]].tag);
      if role != Passed then role else StackRole(s, i - 1, name)
  }

  lemma {:induction false} StackRoleIsNearest(s: State, i: nat, name: string)
    requires KidsOk(s.nodes) && Spine(s) && i < |s.stack|
    ensures NearestRole(s.nodes, s.stack[i], name) == StackRole(s, i, name)
    decreases i
  {
    hide RoleOf;
    if i > 0 {
      StackRoleIsNearest(s, i - 1, name);
      StackParent(s, i);
    }
  }

  lemma {:induction false} StackParent(s: State, i: nat)
    requires KidsOk(s.nodes) && Spine(s) && 0 < i < |s.stack|
    ensures s.nodes[s.stack[i]].parent == s.stack[i - 1] < s.stack[i]
  {
    assert LastKid(s.nodes, s.stack[i - 1], s.stack[i]);
    KidBounds(s.nodes, s.stack[i - 1], |s.nodes[s.stack[i - 1]].kids| - 1);
  }

  /** Elements that close each other follow the same rule; the root follows none. */
  lemma {:induction false} RolesAgree(name: string, tag: string, other: string)
    ensures RoleOf(name, tag) == Closed ==> RoleOf(tag, other) == RoleOf(name, other)
    ensures RoleOf(name, "root") == Passed && RoleOf("", other) == Passed
  {
  }

  lemma {:induction false} NearestAgrees(nodes: seq<Node>, n: nat, name: string, tag: string)
    requires RoleOf(name, tag) == Closed
    ensures NearestRole(nodes, n, name) == NearestRole(nodes, n, tag)
    decreases n
  {
    hide RoleOf;
    if !(n == 0 || n >= |nodes| || nodes[n].parent >= n) {
      RolesAgree(name, tag, nodes[nodes[n].parent].tag);
      NearestAgrees(nodes, nodes[n].parent, name, tag);
    }
  }

  /** No element stands in one it would have closed. */
  ghost predicate Nested(nodes: seq<Node>) {
    |nodes| > 0 && nodes[0].tag == "root" &&
      forall n :: 0 <= n < |nodes| ==> NearestRole(nodes, n, nodes[n].tag) != Closed
  }

  lemma {:induction false} FindClosedFinds(s: State, name: string, i: nat)
    requires Sound(s) && i < |s.stack|
    ensures var j := FindClosed(s, name, i);
            if j > 0 then RoleOf(name, s.nodes[s.stack[j]].tag) == Closed
            else StackRole(s, i + 1, name) != Closed || RoleOf(name, s.nodes[s.stack[0]].tag) == Closed
    decreases i
  {
    hide RoleOf;
    if i > 0 {
      FindClosedFinds(s, name, i - 1);
    }
  }

  lemma {:induction false} StackRoleCut(s: State, j: nat, i: nat, name: string)
    requires Sound(s) && i <= j < |s.stack| && j > 0
    ensures StackRole(Cut(s, j), i, name) == StackRole(s, i, name)
    decreases i
  {
    hide RoleOf;
    if i > 0 {
      StackRoleCut(s, j, i - 1, name);
    }
  }

  lemma {:induction false} ImplicitClears(s: State, name: string)
    requires Shaped(s) && Nested(s.nodes)
    ensures var u := Implicit(s, name); StackRole(u, |u.stack|, name) != Closed
  {
    ShapedSound(s);
    hide RoleOf, FindClosed;
    var j := FindClosed(s, name, |s.stack| - 1);
    FindClosedFinds(s, name, |s.stack| - 1);
    RolesAgree(name, "", "");
    if j > 0 {
      var tag := s.nodes[s.stack[j]].tag;
      NearestAgrees(s.nodes, s.stack[j], name, tag);
      StackRoleIsNearest(s, j, name);
      StackRoleCut(s, j, j, name);
    }
  }

  lemma {:induction false} SameTagsSameRole(a: seq<Node>, b: seq<Node>, n: nat, name: string)
    requires n < |a| && n < |b| && forall k :: 0 <= k <= n ==> a[k].parent == b[k].parent && a[k].tag == b[k].tag
    ensures NearestRole(a, n, name) == NearestRole(b, n, name)
    decreases n
  {
    hide RoleOf;
    if n > 0 && a[n].parent < n {
      SameTagsSameRole(a, b, a[n].parent, name);
    }
  }

  lemma {:induction false} RoleOfKid(nodes: seq<Node>, n: nat, name: string)
    requires 0 < n < |nodes| && nodes[n].parent < n
    ensures var role := RoleOf(name, nodes[nodes[n].parent].tag);
            NearestRole(nodes, n, name) == if role != Passed then role else NearestRole(nodes, nodes[n].parent, name)
  {
  }

  lemma {:induction false} AttachKeepsRoles(s: State, tag: string, text: string, n: nat, name: string)
    requires Sound(s) && n < |s.nodes|
    ensures var t := Attach(s, tag, text);
            t.nodes[n].tag == s.nodes[n].tag && NearestRole(t.nodes, n, name) == NearestRole(s.nodes, n, name)
  {
    SameTagsSameRole(s.nodes, Attach(s, tag, text).nodes, n, name);
  }

  lemma {:induction false} AttachedRole(s: State, tag: string, text: string)
    requires Sound(s) && KidsOk(s.nodes) && Spine(s)
    ensures NearestRole(Attach(s, tag, text).nodes, |s.nodes|, tag) == StackRole(s, |s.stack|, tag)
  {
    hide RoleOf, NearestRole, Attach, KidsOk, Spine;
    var t, m := Attach(s, tag, text), |s.nodes|;
    AttachNodes(s, tag, text, m);
    AttachKeepsRoles(s, tag, text, Top(s), tag);
    StackRoleIsNearest(s, |s.stack| - 1, tag);
    RoleOfKid(t.nodes, m, tag);
  }

  lemma {:induction false} AttachNested(s: State, tag: string, text: string)
    requires Shaped(s) && Sound(s) && Nested(s.nodes) && StackRole(s, |s.stack|, tag) != Closed
    ensures Nested(Attach(s, tag, text).nodes)
  {
    AttachedRole(s, tag, text);
    hide Shaped, RoleOf, NearestRole, StackRole, Attach;
    var t := Attach(s, tag, text);
    AttachNodes(s, tag, text, |s.nodes|);
    forall n | 0 <= n < |t.nodes| ensures NearestRole(t.nodes, n, t.nodes[n].tag) != Closed {
      if n < |s.nodes| {
        AttachKeepsRoles(s, tag, text, n, s.nodes[n].tag);
      }
    }
    AttachKeepsRoles(s, tag, text, 0, "");
  }

  lemma {:induction false} TextHasNoRole(s: State, i: nat)
    requires Sound(s) && i <= |s.stack|
    ensures StackRole(s, i, "") == Passed
    decreases i
  {
    if i > 0 {
      TextHasNoRole(s, i - 1);
    }
  }

  lemma {:induction false} AddTextNested(s: State, raw: string)
    requires Shaped(s) && Sound(s) && Nested(s.nodes)
    ensures Nested(AddText(s, raw).nodes)
  {
    hide Shaped, Nested, Attach, Entities.Decode;
    TextHasNoRole(s, |s.stack|);
    if LastText(s).Some? {
      ExtendNested(s, LastText(s).value, s.nodes[LastText(s).value].text + Entities.Decode(raw));
    } else {
      AttachNested(s, "", Entities.Decode(raw));
    }
  }

  lemma {:induction false} AddOpenNested(s: State, name: string, selfClosing: bool)
    requires Shaped(s) && Sound(s) && Nested(s.nodes)
    ensures Nested(AddOpen(true, s, name, selfClosing).nodes)
  {
    assert Implicit(s, name).nodes == s.nodes;
    hide Shaped, Nested, Attach, Implicit, StackRole;
    ImplicitShaped(s, name);
    ImplicitClears(s, name);
    AttachNested(Implicit(s, name), name, "");
  }

  lemma {:induction false} StepNested(s: State, e: Event)
    requires Shaped(s) && Nested(s.nodes)
    ensures Nested(Step(true, s, e).nodes)
  {
    ShapedSound(s);
    hide Shaped, Nested, AddText, AddOpen, FindOpen;
    match e
    case Text(raw) => AddTextNested(s, raw);
    case Open(name, selfClosing) => AddOpenNested(s, name, selfClosing);
    case Close(name) =>
  }

  lemma {:induction false} ExtendNested(s: State, n: nat, text: string)
    requires Nested(s.nodes) && n < |s.nodes|
    ensures Nested(s.nodes[n := s.nodes[n].(text := text)])
  {
    var t := s.nodes[n := s.nodes[n].(text := text)];
    forall k | 0 <= k < |t| ensures NearestRole(t, k, t[k].tag) != Closed {
      SameTagsSameRole(t, s.nodes, k, t[k].tag);
    }
  }

  /** In HTML mode, for every event sequence: no cell stands directly in a cell, no
      row in a row, no item in an item and no paragraph in a paragraph. */
  lemma {:induction false} TreeIsNested(events: seq<Event>)
    requires forall e :: e in events ==> Proper(e)
    ensures Nested(Build(true, events).nodes)
    decreases |events|
  {
    if events != [] {
      hide Nested, Step, Shaped;
      TreeIsNested(events[..|events| - 1]);
      BuildShaped(true, events[..|events| - 1]);
      StepNested(Build(true, events[..|events| - 1]), events[|events| - 1]);
    }
  }
}
