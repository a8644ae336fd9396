/** Balanced markup comes back as the tree it was written from. */
module MarkupRoundTrip {
  import opened Common
  import opened MarkupTree
  import Entities

  datatype Tree = Leaf(text: string) | Element(tag: string, kids: seq<Tree>)

  /** Trees the builder can hold below an open element with `room` levels left:
      elements have names, text is not empty, and no two texts are neighbours. */
  ghost predicate Plain(t: Tree, room: nat) {
    match t
    case Leaf(text) => text != ""
    case Element(tag, kids) =>
      tag != "" && room > 0 && (forall k :: 0 <= k < |kids| ==> Plain(kids[k], room - 1)) && Spaced(kids)
  }

  ghost predicate Spaced(kids: seq<Tree>) {
    forall k :: 0 < k < |kids| ==> kids[k].Element? || kids[k - 1].Element?
  }

  /** The events that write a tree, and those of an element's first `k` children. */
  function EventsOf(t: Tree): seq<Event>
    decreases t, 1, 0
  {
    match t
    case Leaf(text) => [Text(Entities.Escape(Entities.Markdown, text))]
    case Element(tag, kids) => [Open(tag, false)] + KidsEvents(t, |kids|) + [Close(tag)]
  }

  function KidsEvents(t: Tree, k: nat): seq<Event>
    requires t.Element? && k <= |t.kids|
    decreases t, 0, k
  {
    if k == 0 then [] else KidsEvents(t, k - 1) + EventsOf(t.kids[k - 1])
  }

  /** The subtree of the arena at `n` is `t`. */
  ghost predicate Represents(nodes: seq<Node>, n: nat, t: Tree)
    decreases t
  {
    n < |nodes| &&
    match t
    case Leaf(text) => nodes[n].tag == "" && nodes[n].text == text && nodes[n].kids == []
    case Element(tag, kids) =>
      && tag != "" && nodes[n].tag == tag && |nodes[n].kids| == |kids|
      && forall k :: 0 <= k < |kids| ==> n < nodes[n].kids[k] && Represents(nodes, nodes[n].kids[k], kids[k])
  }

  /** A subtree is not touched by what happens in front of it or behind it. */
  lemma {:induction false} RepresentsFrame(a: seq<Node>, b: seq<Node>, n: nat, t: Tree)
    requires Represents(a, n, t) && |a| <= |b| && forall i :: n <= i < |a| ==> a[i] == b[i]
    ensures Represents(b, n, t)
    decreases t
  {
    if t.Element? {
      forall k | 0 <= k < |t.kids| ensures n < b[n].kids[k] && Represents(b, b[n].kids[k], t.kids[k]) {
        RepresentsFrame(a, b, a[n].kids[k], t.kids[k]);
      }
    }
  }

  // ---- runs from a state -------------------------------------------------

  function RunFrom(s: State, events: seq<Event>): (t: State)
    requires Sound(s)
    ensures Sound(t)
  {
    if events == [] then s else Step(false, RunFrom(s, events[..|events| - 1]), events[|events| - 1])
  }

  lemma {:induction false} BuildIsRun(events: seq<Event>)
    ensures Build(false, events) == RunFrom(Empty(), events)
    decreases |events|
  {
    hide Step;
    if events != [] {
      BuildIsRun(events[..|events| - 1]);
    }
  }

  lemma {:induction false} RunAppends(s: State, a: seq<Event>, b: seq<Event>)
    requires Sound(s)
    ensures RunFrom(s, a + b) == RunFrom(RunFrom(s, a), b)
    decreases |b|
  {
    hide Step;
    if b == [] {
      assert a + b == a;
    } else {
      RunAppends(s, a, b[..|b| - 1]);
      assert (a + b)[..|a + b| - 1] == a + b[..|b| - 1];
    }
  }

  lemma {:induction false} RunOne(s: State, e: Event)
    requires Sound(s)
    ensures RunFrom(s, [e]) == Step(false, s, e)
  {
    hide Step;
    assert [e][..0] == [];
    assert RunFrom(s, []) == s;
  }

  // ---- adding one tree ---------------------------------------------------

  /** From `s` to `u` one child, the subtree `t`, was added to the innermost open
      element; nothing else changed. */
  ghost predicate Grew(s: State, u: State, t: Tree) {
    && Sound(s) && |s.nodes| < |u.nodes| && u.stack == s.stack
    && u.nodes[Top(s)] == s.nodes[Top(s)].(kids := s.nodes[Top(s)].kids + [|s.nodes|])
    && (forall n :: 0 <= n < |s.nodes| && n != Top(s) ==> u.nodes[n] == s.nodes[n])
    && Represents(u.nodes, |s.nodes|, t)
  }

  /** From `s` to `u` the first `k` children of `t` were added. */
  ghost predicate GrewKids(s: State, u: State, t: Tree, k: nat) {
    && t.Element? && k <= |t.kids| && Sound(s) && |s.nodes| <= |u.nodes| && u.stack == s.stack
    && (forall n :: 0 <= n < |s.nodes| && n != Top(s) ==> u.nodes[n] == s.nodes[n])
    && u.nodes[Top(s)] == s.nodes[Top(s)].(kids := u.nodes[Top(s)].kids) && |u.nodes[Top(s)].kids| == k
    && forall j :: 0 <= j < k ==>
         |s.nodes| <= u.nodes[Top(s)].kids[j] && Represents(u.nodes, u.nodes[Top(s)].kids[j], t.kids[j])
  }

  lemma {:induction false} AddLeaf(s: State, text: string)
    requires Sound(s) && text != "" && LastText(s).None?
    ensures Grew(s, RunFrom(s, EventsOf(Leaf(text))), Leaf(text))
  {
    var raw := Entities.Escape(Entities.Markdown, text);
    Entities.RoundTrip(Entities.Markdown, text);
    hide Entities.Escape, Entities.Decode;
    Entities.DecodeNothing("");
    assert raw != "";
    RunOne(s, Text(raw));
    hide Attach, LastText;
    assert RunFrom(s, EventsOf(Leaf(text))) == Attach(s, "", text);
    AttachGrows(s, "", text);
  }

  lemma {:induction false} AttachGrows(s: State, tag: string, text: string)
    requires Sound(s)
    ensures var u, m := Attach(s, tag, text), |s.nodes|;
            && u.stack == s.stack && u.nodes[Top(s)] == s.nodes[Top(s)].(kids := s.nodes[Top(s)].kids + [m])
            && (forall n :: 0 <= n < m && n != Top(s) ==> u.nodes[n] == s.nodes[n])
            && u.nodes[m] == Node(tag, text, [], Top(s))
  {
  }

  lemma {:induction false} OpenElement(s: State, tag: string)
    requires Sound(s) && tag != "" && |s.stack| <= MAX_DEPTH
    ensures var u, m := Step(false, s, Open(tag, false)), |s.nodes|;
            && u.stack == s.stack + [m] && |u.nodes| == m + 1 && u.nodes[m] == Node(tag, "", [], Top(s))
            && u.nodes[Top(s)] == s.nodes[Top(s)].(kids := s.nodes[Top(s)].kids + [m])
            && forall n :: 0 <= n < m && n != Top(s) ==> u.nodes[n] == s.nodes[n]
  {
    hide Attach;
    AttachGrows(s, tag, "");
  }

  lemma {:induction false} CloseTop(s: State, tag: string)
    requires Sound(s) && |s.stack| > 1 && s.nodes[Top(s)].tag == tag
    ensures Step(false, s, Close(tag)) == State(s.nodes, s.stack[..|s.stack| - 1])
  {
  }

  /** The last child decides whether text would be merged. */
  lemma {:induction false} LastKidShows(s: State, u: State, t: Tree, k: nat)
    requires GrewKids(s, u, t, k) && Sound(u)
    ensures LastText(u).Some? ==> k > 0 && t.kids[k - 1].Leaf?
  {
    if k > 0 {
      assert Represents(u.nodes, u.nodes[Top(s)].kids[k - 1], t.kids[k - 1]);
    }
  }

  lemma {:induction false} OneMoreKid(s: State, u: State, v: State, t: Tree, k: nat)
    requires GrewKids(s, u, t, k) && k < |t.kids| && Sound(u) && Grew(u, v, t.kids[k])
    ensures GrewKids(s, v, t, k + 1)
  {
    var top := Top(s);
    assert Top(u) == top;
    forall j | 0 <= j < k + 1
      ensures |s.nodes| <= v.nodes[top].kids[j] && Represents(v.nodes, v.nodes[top].kids[j], t.kids[j])
    {
      if j < k {
        var n := u.nodes[top].kids[j];
        assert |s.nodes| <= n && Represents(u.nodes, n, t.kids[j]);
        hide Represents;
        RepresentsFrame(u.nodes, v.nodes, n, t.kids[j]);
      }
    }
  }

  /** A finished element: its children grown inside it, then closed. */
  lemma {:induction false} FinishElement(s: State, a: State, u: State, v: State, t: Tree)
    requires Sound(s) && t.Element? && t.tag != "" && Sound(a) && GrewKids(a, u, t, |t.kids|)
    requires a.stack == s.stack + [|s.nodes|] && |a.nodes| == |s.nodes| + 1 &&
             a.nodes[|s.nodes|] == Node(t.tag, "", [], Top(s))
    requires a.nodes[Top(s)] == s.nodes[Top(s)].(kids := s.nodes[Top(s)].kids + [|s.nodes|])
    requires forall n :: 0 <= n < |s.nodes| && n != Top(s) ==> a.nodes[n] == s.nodes[n]
    requires v == State(u.nodes, u.stack[..|u.stack| - 1])
    ensures Grew(s, v, t)
  {
    assert Top(a) == |s.nodes|;
    assert v.stack == s.stack;
    forall k | 0 <= k < |t.kids|
      ensures |s.nodes| < v.nodes[|s.nodes|].kids[k] && Represents(v.nodes, v.nodes[|s.nodes|].kids[k], t.kids[k])
    {
      hide Represents;
    }
  }

  lemma {:induction false} AddTree(s: State, t: Tree, room: nat)
    requires Sound(s) && Plain(t, room) && |s.stack| + room <= MAX_DEPTH + 1 && (t.Leaf? ==> LastText(s).None?)
    ensures Grew(s, RunFrom(s, EventsOf(t)), t)
    decreases t, 1, 0
  {
    match t
    case Leaf(text) => AddLeaf(s, text);
    case Element(tag, kids) =>
      hide Grew, GrewKids, Represents, Step, LastText;
      var a := Step(false, s, Open(tag, false));
      OpenElement(s, tag);
      RunOne(s, Open(tag, false));
      AddKids(a, t, |kids|, room);
      var u := RunFrom(a, KidsEvents(t, |kids|));
      RunAppends(s, [Open(tag, false)], KidsEvents(t, |kids|));
      RunAppends(s, [Open(tag, false)] + KidsEvents(t, |kids|), [Close(tag)]);
      RunOne(u, Close(tag));
      GrewKidsKeeps(a, u, t, |kids|);
      CloseTop(u, tag);
      FinishElement(s, a, u, RunFrom(s, EventsOf(t)), t);
  }

  lemma {:induction false} GrewKidsKeeps(s: State, u: State, t: Tree, k: nat)
    requires GrewKids(s, u, t, k)
    ensures u.stack == s.stack && Sound(u) && u.nodes[Top(u)].tag == s.nodes[Top(s)].tag
  {
  }

  lemma {:induction false} AddKids(s: State, t: Tree, k: nat, room: nat)
    requires Sound(s) && Plain(t, room) && t.Element? && k <= |t.kids| && |s.stack| + room <= MAX_DEPTH + 2
    requires s.nodes[Top(s)].kids == []
    ensures GrewKids(s, RunFrom(s, KidsEvents(t, k)), t, k)
    decreases t, 0, k
  {
    hide Step, LastText, GrewKids, Grew, Represents, Plain, RunFrom;
    if k == 0 {
      NoKids(s, t);
    } else {
      AddKids(s, t, k - 1, room);
      var u := RunFrom(s, KidsEvents(t, k - 1));
      RunAppends(s, KidsEvents(t, k - 1), EventsOf(t.kids[k - 1]));
      LastKidShows(s, u, t, k - 1);
      GrewKidsKeeps(s, u, t, k - 1);
      PlainKid(t, room, k - 1);
      AddTree(u, t.kids[k - 1], room - 1);
      OneMoreKid(s, u, RunFrom(u, EventsOf(t.kids[k - 1])), t, k - 1);
    }
  }

  lemma {:induction false} NoKids(s: State, t: Tree)
    requires Sound(s) && t.Element? && s.nodes[Top(s)].kids == []
    ensures GrewKids(s, RunFrom(s, KidsEvents(t, 0)), t, 0)
  {
  }

  lemma {:induction false} PlainKid(t: Tree, room: nat, k: nat)
    requires Plain(t, room) && t.Element? && k < |t.kids|
    ensures room > 0 && Plain(t.kids[k], room - 1) && (k > 0 && t.kids[k - 1].Leaf? ==> t.kids[k].Element?)
  {
  }

  /** Writing any tree inside the depth cap as balanced, escaped events and building
      it again gives back that tree, node for node. */
  lemma {:induction false} TreesComeBack(t: Tree)
    requires t.Element? && t.tag == "root" && Plain(t, MAX_DEPTH + 1)
    ensures Represents(Build(false, KidsEvents(t, |t.kids|)).nodes, 0, t)
  {
    BuildIsRun(KidsEvents(t, |t.kids|));
    AddKids(Empty(), t, |t.kids|, MAX_DEPTH + 1);
    var s, u := Empty(), RunFrom(Empty(), KidsEvents(t, |t.kids|));
    hide RunFrom, Build, KidsEvents, Plain;
    assert Top(s) == 0;
    forall k | 0 <= k < |t.kids| ensures 0 < u.nodes[0].kids[k] && Represents(u.nodes, u.nodes[0].kids[k], t.kids[k]) {
      assert |s.nodes| <= u.nodes[Top(s)].kids[k];
    }
  }
}
