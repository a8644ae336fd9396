/** The document forest that `LayoutWriter` builds (src/mapping/layout.cpp) with
    `finalize_document` (src/mapping/builder.h). */
module LayoutForest {

  datatype Kind = TextItem | Picture | Table | KeyValue | Group | FieldRegion
  datatype Ref = Body | Item(kind: Kind, index: nat)
  datatype Entry = Entry(ref: Ref, parent: Ref)

  /** Whether a text item is code or of a case that has a base. */
  type Based = nat -> bool

  /** Items that can carry a child list, a self ref and a parent ref. */
  predicate Holds(ref: Ref, based: Based) {
    ref.Body? || (ref.kind != KeyValue && (ref.kind == TextItem ==> based(ref.index)))
  }

  /** The entries under `p`, in creation order. */
  function ChildrenIn(entries: seq<Entry>, p: Ref): seq<Ref> {
    if entries == [] then []
    else
      var rest, e := ChildrenIn(entries[..|entries| - 1], p), entries[|entries| - 1];
      if e.parent == p then rest + [e.ref] else rest
  }

  /** Handles are distinct, and every parent handle was returned earlier. */
  ghost predicate HandedOut(entries: seq<Entry>) {
    && (forall i :: 0 <= i < |entries| ==> entries[i].ref.Item?)
    && (forall i, j :: 0 <= i < j < |entries| ==> entries[i].ref != entries[j].ref)
    && (forall i :: 0 <= i < |entries| && entries[i].parent.Item? ==> Returned(entries, i, entries[i].parent))
  }

  ghost predicate Returned(entries: seq<Entry>, n: nat, ref: Ref) {
    exists j :: 0 <= j < n && j < |entries| && entries[j].ref == ref
  }

  /** Child lists and parent refs, as far as they are set. */
  datatype Document = Document(children: map<Ref, seq<Ref>>, parents: map<Ref, Ref>)

  function Kids(d: Document, p: Ref): seq<Ref> {
    if p in d.children then d.children[p] else []
  }

  function Listed(d: Document, p: Ref, ref: Ref): Document {
    d.(children := d.children[p := Kids(d, p) + [ref]])
  }

  function Stamped(d: Document, ref: Ref, parent: Ref): Document {
    d.(parents := d.parents[ref := parent])
  }

  /** A document whose lists and parent refs are those of the entries: lists under
      the body and under items that hold children, parent refs on items that hold
      them (and on key-value items in the body). */
  ghost predicate Reflects(d: Document, entries: seq<Entry>, based: Based) {
    && (forall p :: Kids(d, p) == if Holds(p, based) then ChildrenIn(entries, p) else [])
    && (forall i :: 0 <= i < |entries| ==>
          var e := entries[i];
          if Holds(e.ref, based) || (e.parent.Body? && e.ref.Item? && e.ref.kind == KeyValue)
          then e.ref in d.parents && d.parents[e.ref] == e.parent else e.ref !in d.parents)
  }

  class LayoutWriter {
    var entries: seq<Entry>
    var body: seq<Ref>
    var counts: map<Ref, nat>

    ghost predicate Valid()
      reads this
    {
      && HandedOut(entries) && body == ChildrenIn(entries, Body)
      && forall p: Ref :: p.Item? ==> (if p in counts then counts[p] else 0) == |ChildrenIn(entries, p)|
    }

    constructor ()
      ensures Valid() && entries == []
    {
      entries, body, counts := [], [], map[];
    }

    method AddEntry(kind: Kind, index: nat, parent: Ref) returns (ref: Ref)
      requires Valid() && (forall i :: 0 <= i < |entries| ==> entries[i].ref != Item(kind, index))
      requires parent.Item? ==> Returned(entries, |entries|, parent)
      modifies this
      ensures Valid() && ref == Item(kind, index) && entries == old(entries) + [Entry(ref, parent)]
    {
      ref := Item(kind, index);
      HandOut(entries, Entry(ref, parent));
      forall p
        ensures ChildrenIn(entries + [Entry(ref, parent)], p) == if p == parent then ChildrenIn(entries, p) + [ref]
                else ChildrenIn(entries, p)
      {
        ChildrenAppend(entries, Entry(ref, parent), p);
      }
      hide ChildrenIn, HandedOut;
      entries := entries + [Entry(ref, parent)];
      if parent == Body {
        body := body + [ref];
      } else {
        counts := counts[parent := (if parent in counts then counts[parent] else 0) + 1];
      }
    }

    /** The number of children the finished item will list, if it lists any. */
    method ChildrenOf(ref: Ref) returns (n: nat)
      requires Valid() && ref.Item?
      ensures n == |ChildrenIn(entries, ref)|
    {
      n := if ref in counts then counts[ref] else 0;
    }

    method Finish(based: Based, allowEmpty: bool) returns (ok: bool, d: Document)
      requires Valid()
      ensures ok <==> entries != [] || allowEmpty
      ensures ok ==> Reflects(d, entries, based)
    {
      d := Document(map[], map[]);
      if entries == [] && !allowEmpty {
        return false, d;
      }
      ok := true;
      d := FinishBody(based);
      hide Holds, HandedOut, ChildrenIn;
      for k := 0 to |entries|
        invariant Halfway(d, entries, k, based)
      {
        var e := entries[k];
        NestOne(d, entries, k, based);
        if e.parent != Body {
          if Holds(e.ref, based) {
            d := Stamped(d, e.ref, e.parent);
          }
          if Holds(e.parent, based) {
            d := Listed(d, e.parent, e.ref);
          }
        }
      }
      AllTheWay(d, entries, based);
    }

    /** Stamping and listing the body's children. */
    method FinishBody(based: Based) returns (d: Document)
      requires Valid()
      ensures Halfway(d, entries, 0, based)
    {
      d := Document(map[], map[]);
      for k := 0 to |body|
        invariant d.children == (if k == 0 then map[] else map[Body := body[..k]])
        invariant forall ref :: ref in d.parents <==>
                  exists j :: 0 <= j < k && body[j] == ref && StampedInBody(ref, based)
        invariant forall ref :: ref in d.parents ==> d.parents[ref] == Body
      {
        var ref := body[k];
        assert body[..k + 1] == body[..k] + [ref];
        if StampedInBody(ref, based) {
          d := Stamped(d, ref, Body);
        }
        d := Listed(d, Body, ref);
      }
      BodyDone(d, entries, body, based);
    }
  }

  predicate StampedInBody(ref: Ref, based: Based) {
    Holds(ref, based) || (ref.Item? && ref.kind == KeyValue)
  }

  /** Body entries are in place, and of the others the first `k`. */
  ghost predicate Halfway(d: Document, entries: seq<Entry>, k: nat, based: Based) {
    k <= |entries| &&
    (forall p :: Kids(d, p) == if p == Body then ChildrenIn(entries, p)
      else if Holds(p, based) then ChildrenIn(entries[..k], p) else []) &&
    (forall i :: 0 <= i < |entries| ==>
       var e := entries[i];
       if (if e.parent.Body? then StampedInBody(e.ref, based) else i < k && Holds(e.ref, based))
       then e.ref in d.parents && d.parents[e.ref] == e.parent else e.ref !in d.parents)
  }

  lemma {:induction false} ChildrenAppend(entries: seq<Entry>, e: Entry, p: Ref)
    ensures ChildrenIn(entries + [e], p) == if p == e.parent then ChildrenIn(entries, p) + [e.ref]
            else ChildrenIn(entries, p)
  {
    assert (entries + [e])[..|entries|] == entries;
  }

  lemma {:induction false} HandOut(entries: seq<Entry>, e: Entry)
    requires HandedOut(entries) && e.ref.Item? && forall i :: 0 <= i < |entries| ==> entries[i].ref != e.ref
    requires e.parent.Item? ==> Returned(entries, |entries|, e.parent)
    ensures HandedOut(entries + [e])
  {
    var after := entries + [e];
    forall i | 0 <= i < |after| && after[i].parent.Item? ensures Returned(after, i, after[i].parent) {
      var j :| 0 <= j < i && j < |entries| && entries[j].ref == after[i].parent;
      assert after[j].ref == after[i].parent;
    }
  }

  lemma {:induction false} InChildren(entries: seq<Entry>, p: Ref, ref: Ref)
    ensures ref in ChildrenIn(entries, p) <==> exists i :: 0 <= i < |entries| && entries[i] == Entry(ref, p)
    decreases |entries|
  {
    if entries != [] {
      var n := |entries| - 1;
      InChildren(entries[..n], p, ref);
      if ref in ChildrenIn(entries[..n], p) {
        var i :| 0 <= i < n && entries[..n][i] == Entry(ref, p);
        assert entries[i] == Entry(ref, p);
      }
      if exists i :: 0 <= i < |entries| && entries[i] == Entry(ref, p) {
        var i :| 0 <= i < |entries| && entries[i] == Entry(ref, p);
        assert i < n ==> entries[..n][i] == Entry(ref, p);
      }
    }
  }

  lemma {:induction false} BodyDone(d: Document, entries: seq<Entry>, body: seq<Ref>, based: Based)
    requires HandedOut(entries) && body == ChildrenIn(entries, Body)
    requires d.children == if |body| == 0 then map[] else map[Body := body[..|body|]]
    requires forall ref :: ref in d.parents <==>
             exists j :: 0 <= j < |body| && body[j] == ref && StampedInBody(ref, based)
    requires forall ref :: ref in d.parents ==> d.parents[ref] == Body
    ensures Halfway(d, entries, 0, based)
  {
    hide Holds;
    assert body[..|body|] == body;
    forall i | 0 <= i < |entries|
      ensures entries[i].ref in d.parents <==> entries[i].parent.Body? && StampedInBody(entries[i].ref, based)
    {
      var e := entries[i];
      InChildren(entries, Body, e.ref);
      if e.ref in body {
        var j :| 0 <= j < |entries| && entries[j] == Entry(e.ref, Body);
        assert i == j;
      }
    }
    assert entries[..0] == [];
  }

  lemma {:induction false} NestOne(d: Document, entries: seq<Entry>, k: nat, based: Based)
    requires HandedOut(entries) && k < |entries| && Halfway(d, entries, k, based)
    ensures var e := entries[k];
            var stamped := if e.parent != Body && Holds(e.ref, based) then Stamped(d, e.ref, e.parent) else d;
            var listed :=
              if e.parent != Body && Holds(e.parent, based) then Listed(stamped, e.parent, e.ref) else stamped;
            Halfway(listed, entries, k + 1, based)
  {
    hide Holds, ChildrenIn;
    var e := entries[k];
    assert entries[..k + 1] == entries[..k] + [e];
    forall p
      ensures ChildrenIn(entries[..k + 1], p) == if p == e.parent then ChildrenIn(entries[..k], p) + [e.ref]
              else ChildrenIn(entries[..k], p)
    {
      ChildrenAppend(entries[..k], e, p);
    }
  }

  lemma {:induction false} AllTheWay(d: Document, entries: seq<Entry>, based: Based)
    requires Halfway(d, entries, |entries|, based)
    ensures Reflects(d, entries, based)
  {
    hide ChildrenIn;
    assert entries[..|entries|] == entries;
  }

  // ---- the finished document is a forest ---------------------------------

  /** Children keep creation order. */
  lemma {:induction false} CreationOrder(entries: seq<Entry>, p: Ref, j: nat, k: nat) returns (a: nat, b: nat)
    requires j < k < |ChildrenIn(entries, p)|
    ensures a < b < |entries| && entries[a] == Entry(ChildrenIn(entries, p)[j], p) &&
            entries[b] == Entry(ChildrenIn(entries, p)[k], p)
    decreases |entries|
  {
    var n := |entries| - 1;
    var rest := ChildrenIn(entries[..n], p);
    if k < |rest| {
      a, b := CreationOrder(entries[..n], p, j, k);
    } else {
      InChildren(entries[..n], p, rest[j]);
      a :| 0 <= a < n && entries[..n][a] == Entry(rest[j], p);
      b := n;
    }
  }

  /** A handle stands in a child list exactly when its parent holds children; then it
      stands there once, in no other list, and names that parent. */
  lemma {:induction false} EachEntryOnce(d: Document, entries: seq<Entry>, based: Based, i: nat)
    requires HandedOut(entries) && Reflects(d, entries, based) && i < |entries|
    ensures var e := entries[i];
            && (forall p :: e.ref in Kids(d, p) <==> p == e.parent && Holds(p, based))
            && (forall j, k :: 0 <= j < k < |Kids(d, e.parent)| ==> Kids(d, e.parent)[j] != Kids(d, e.parent)[k])
            && (Holds(e.ref, based) ==> e.ref in d.parents && d.parents[e.ref] == e.parent)
  {
    hide Holds, ChildrenIn;
    var e := entries[i];
    forall p ensures e.ref in ChildrenIn(entries, p) <==> p == e.parent {
      InChildren(entries, p, e.ref);
      if p == e.parent {
        assert entries[i] == Entry(e.ref, p);
      }
    }
    var kids := ChildrenIn(entries, e.parent);
    forall j, k | 0 <= j < k < |kids| ensures kids[j] != kids[k] {
      var a, b := CreationOrder(entries, e.parent, j, k);
    }
  }

  function IndexOf(entries: seq<Entry>, n: nat, ref: Ref): (j: nat)
    requires n <= |entries| && Returned(entries, n, ref)
    ensures j < n && entries[j].ref == ref
  {
    if entries[n - 1].ref == ref then n - 1 else IndexOf(entries, n - 1, ref)
  }

  /** The way from the body down to an entry. */
  function Path(entries: seq<Entry>, i: nat): (path: seq<Ref>)
    requires HandedOut(entries) && i < |entries|
    ensures 2 <= |path| <= i + 2 && path[0] == Body && path[|path| - 1] == entries[i].ref &&
            path[|path| - 2] == entries[i].parent
  {
    if entries[i].parent.Body? then [Body, entries[i].ref]
    else Path(entries, IndexOf(entries, i, entries[i].parent)) + [entries[i].ref]
  }

  /** A way down through child lists. */
  ghost predicate Linked(d: Document, path: seq<Ref>) {
    |path| > 0 && forall k :: 0 < k < |path| ==> path[k] in Kids(d, path[k - 1])
  }

  ghost predicate LinkedTo(d: Document, path: seq<Ref>, ref: Ref) {
    Linked(d, path) && path[0] == Body && path[|path| - 1] == ref
  }

  /** The creation number of a handle; the body comes first. */
  ghost function Rank(entries: seq<Entry>, ref: Ref): nat {
    if exists i :: 0 <= i < |entries| && entries[i].ref == ref then
      var i :| 0 <= i < |entries| && entries[i].ref == ref;
      i + 1
    else 0
  }

  lemma {:induction false} RankIs(entries: seq<Entry>, i: nat)
    requires HandedOut(entries) && i < |entries|
    ensures Rank(entries, entries[i].ref) == i + 1 && Rank(entries, Body) == 0
  {
  }

  /** A listed child was created after what lists it. */
  lemma {:induction false} ListedLater(d: Document, entries: seq<Entry>, based: Based, p: Ref, ref: Ref)
    requires HandedOut(entries) && Reflects(d, entries, based) && ref in Kids(d, p)
    ensures Rank(entries, p) < Rank(entries, ref)
  {
    hide Rank, Holds;
    InChildren(entries, p, ref);
    var i :| 0 <= i < |entries| && entries[i] == Entry(ref, p);
    RankIs(entries, i);
    if p.Item? {
      var j :| 0 <= j < i && entries[j].ref == p;
      RankIs(entries, j);
    }
  }

  /** Child lists never lead back: no way through them, from anywhere, meets the same
      item twice. */
  lemma {:induction false} ChildListsAreAcyclic(d: Document, entries: seq<Entry>, based: Based, path: seq<Ref>)
    requires HandedOut(entries) && Reflects(d, entries, based) && Linked(d, path)
    ensures forall m, n :: 0 <= m < n < |path| ==> Rank(entries, path[m]) < Rank(entries, path[n])
    ensures forall m, n :: 0 <= m < n < |path| ==> path[m] != path[n]
    decreases |path|
  {
    hide HandedOut, Reflects, Rank;
    if |path| > 1 {
      var last := |path| - 1;
      assert path[last] in Kids(d, path[last - 1]);
      ListedLater(d, entries, based, path[last - 1], path[last]);
      LinkedPrefix(d, path);
      ChildListsAreAcyclic(d, entries, based, path[..last]);
      assert forall n :: 0 <= n < last ==> path[n] == path[..last][n];
    }
  }

  lemma {:induction false} LinkedPrefix(d: Document, path: seq<Ref>)
    requires Linked(d, path) && |path| > 1
    ensures Linked(d, path[..|path| - 1])
  {
    var front := path[..|path| - 1];
    forall k | 0 < k < |front| ensures front[k] in Kids(d, front[k - 1]) {
      assert path[k] in Kids(d, path[k - 1]);
    }
  }

  /** There is at most one way from the body to an entry. */
  lemma {:induction false} OnlyPath(d: Document, entries: seq<Entry>, based: Based, i: nat, path: seq<Ref>)
    requires HandedOut(entries) && Reflects(d, entries, based) && i < |entries| && LinkedTo(d, path, entries[i].ref)
    ensures path == Path(entries, i)
    decreases i
  {
    var last := |path| - 1;
    assert path[last].Item? && last > 0;
    assert path[last] in Kids(d, path[last - 1]);
    EachEntryOnce(d, entries, based, i);
    assert path[last - 1] == entries[i].parent;
    LinkedPrefix(d, path);
    assert path == path[..last] + [path[last]];
    if entries[i].parent.Item? {
      var j := IndexOf(entries, i, entries[i].parent);
      OnlyPath(d, entries, based, j, path[..last]);
    } else {
      ChildListsAreAcyclic(d, entries, based, path);
      assert last - 1 == 0;
    }
  }

  /** Everything on a way but its end can carry children. */
  ghost predicate AllAboveHold(path: seq<Ref>, based: Based) {
    forall k :: 0 <= k < |path| - 1 ==> Holds(path[k], based)
  }

  lemma {:induction false} AllAboveHoldAppend(path: seq<Ref>, ref: Ref, based: Based)
    requires path != []
    ensures AllAboveHold(path + [ref], based) <==> AllAboveHold(path, based) && Holds(path[|path| - 1], based)
  {
    hide Holds;
    var longer := path + [ref];
    assert forall k :: 0 <= k < |path| ==> longer[k] == path[k];
  }

  /** An entry is reached from the body through child lists exactly when everything on
      its way up can carry children. */
  lemma {:induction false} ReachedFromBody(d: Document, entries: seq<Entry>, based: Based, i: nat)
    requires HandedOut(entries) && Reflects(d, entries, based) && i < |entries|
    ensures (exists path :: LinkedTo(d, path, entries[i].ref)) <==>
            AllAboveHold(Path(entries, i), based)
  {
    PathIsLinked(d, entries, based, i);
    if path :| LinkedTo(d, path, entries[i].ref) {
      OnlyPath(d, entries, based, i, path);
    }
  }

  lemma {:induction false} PathIsLinked(d: Document, entries: seq<Entry>, based: Based, i: nat)
    requires HandedOut(entries) && Reflects(d, entries, based) && i < |entries|
    ensures LinkedTo(d, Path(entries, i), entries[i].ref) <==>
            AllAboveHold(Path(entries, i), based)
    decreases i
  {
    var path := Path(entries, i);
    EachEntryOnce(d, entries, based, i);
    hide Reflects, HandedOut, Kids, Holds, LinkedTo, AllAboveHold;
    if entries[i].parent.Item? {
      var j := IndexOf(entries, i, entries[i].parent);
      PathIsLinked(d, entries, based, j);
      LinkedAppend(d, Path(entries, j), entries[i].ref);
      AllAboveHoldAppend(Path(entries, j), entries[i].ref, based);
    } else {
      assert path == [Body] + [entries[i].ref];
      LinkedAppend(d, [Body], entries[i].ref);
      AllAboveHoldAppend([Body], entries[i].ref, based);
      BodyIsLinked(d, based);
    }
  }

  lemma {:induction false} LinkedAppend(d: Document, path: seq<Ref>, ref: Ref)
    requires path != []
    ensures var last := path[|path| - 1];
            LinkedTo(d, path + [ref], ref) <==> LinkedTo(d, path, last) && ref in Kids(d, last)
  {
    hide Kids;
    var longer := path + [ref];
    if LinkedTo(d, longer, ref) {
      LinkedPrefix(d, longer);
      assert longer[..|longer| - 1] == path;
      assert longer[|path|] in Kids(d, longer[|path| - 1]);
    }
    if LinkedTo(d, path, path[|path| - 1]) && ref in Kids(d, path[|path| - 1]) {
      forall k | 0 < k < |longer| ensures longer[k] in Kids(d, longer[k - 1]) {
        if k < |path| {
          assert path[k] in Kids(d, path[k - 1]);
        }
      }
    }
  }

  lemma {:induction false} BodyIsLinked(d: Document, based: Based)
    ensures LinkedTo(d, [Body], Body) && AllAboveHold([Body], based)
  {
  }

  /** What the writer creates: every kind but key-value items, and every text item is
      code or has a base. */
  ghost predicate WriterMade(entries: seq<Entry>, based: Based) {
    forall i :: 0 <= i < |entries| && entries[i].ref.Item? ==>
      entries[i].ref.kind != KeyValue && (entries[i].ref.kind == TextItem ==> based(entries[i].ref.index))
  }

  lemma {:induction false} WaysUpHold(entries: seq<Entry>, based: Based, i: nat, k: nat)
    requires HandedOut(entries) && WriterMade(entries, based) && i < |entries| && k < |Path(entries, i)|
    ensures Holds(Path(entries, i)[k], based)
    decreases i
  {
    if entries[i].parent.Item? && k < |Path(entries, i)| - 1 {
      WaysUpHold(entries, based, IndexOf(entries, i, entries[i].parent), k);
    }
  }

  /** Every document the writer finishes is a forest under the body: each entry is in
      exactly its parent's list, once, names that parent, lists exactly its own children
      in creation order, and is reached from the body by exactly one way. */
  lemma {:induction false} WriterBuildsAForest(d: Document, entries: seq<Entry>, based: Based, i: nat)
    requires HandedOut(entries) && Reflects(d, entries, based) && WriterMade(entries, based) && i < |entries|
    ensures var e := entries[i];
            && (forall p :: e.ref in Kids(d, p) <==> p == e.parent)
            && (forall j, k :: 0 <= j < k < |Kids(d, e.parent)| ==> Kids(d, e.parent)[j] != Kids(d, e.parent)[k])
            && e.ref in d.parents && d.parents[e.ref] == e.parent
            && Kids(d, e.ref) == ChildrenIn(entries, e.ref)
            && LinkedTo(d, Path(entries, i), e.ref)
            && forall path :: LinkedTo(d, path, e.ref) ==> path == Path(entries, i)
  {
    var path := Path(entries, i);
    forall k | 0 <= k < |path| ensures Holds(path[k], based) {
      WaysUpHold(entries, based, i, k);
    }
    assert Holds(entries[i].ref, based);
    assert Holds(path[|path| - 2], based);
    EachEntryOnce(d, entries, based, i);
    PathIsLinked(d, entries, based, i);
    forall way | LinkedTo(d, way, entries[i].ref) ensures way == path {
      OnlyPath(d, entries, based, i, way);
    }
  }
}
