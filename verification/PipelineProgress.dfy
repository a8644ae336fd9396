/** Deadlock freedom of the pipeline across streams.

    A core step carries one page one phase further: a lease step, or a thread
    acting on the page it has. Reading from the client and writing to it are not
    core steps, so nothing here depends on the client. That a call in flight
    answers is the one thing assumed of the outside: `Answer` is a core step. */
module PipelineProgress {
  import opened Common
  import opened Pipeline
  import opened Ledgers
  import opened StreamInvariant
  import opened SystemInvariant

  ghost predicate IsCore(g: System, a: Step) {
    Can(g, a) && (a.OnLease? || (a.OnStream? && Target(g.streams[a.stream], a.local).Some?))
  }

  /** The page a core step carries. */
  ghost function Mover(g: System, a: Step): PageId
    requires IsCore(g, a)
  {
    if a.OnLease? then a.page else PageId(a.stream, Target(g.streams[a.stream], a.local).value)
  }

  // ---- core steps use up work --------------------------------------------

  function Weight(f: Phase): nat {
    match f
    case Validated => 19 case InStreamLine => 18 case GotStreamBytes => 17 case InProcessLine => 16
    case GotBothBytes => 15 case Announced => 14 case Queued => 13
    case Popped(_) => 12 case Cleared(_) => 11 case InSlotLine(_) => 10 case Calling(_) => 9
    case Answered(_, _) => 8 case Published(_, _) => 7
    case FreeingSlot(_, _) => 6 case FreeingProcess(_, _) => 5 case FreeingStream(_, _) => 4
    case BackingOut => 1
    case Refused => 0 case Finished(_) => 0 case Skipped => 0
  }

  function PagesWork(pages: seq<Page>): nat {
    if pages == [] then 0 else PagesWork(pages[..|pages| - 1]) + Weight(pages[|pages| - 1].phase)
  }

  function StreamsWork(streams: seq<Stream>): nat {
    if streams == [] then 0
    else StreamsWork(streams[..|streams| - 1]) + PagesWork(streams[|streams| - 1].pages)
  }

  function Work(g: System): nat {
    StreamsWork(g.streams)
  }

  lemma {:induction false} PagesWorkUpdate(pages: seq<Page>, k: nat, f: Phase)
    requires k < |pages|
    ensures PagesWork(Repaint(pages, k, f)) == PagesWork(pages) - Weight(pages[k].phase) + Weight(f)
  {
    var n, after := |pages| - 1, Repaint(pages, k, f);
    if k == n {
      assert after[..n] == pages[..n];
    } else {
      PagesWorkUpdate(pages[..n], k, f);
      assert after[..n] == Repaint(pages[..n], k, f);
    }
  }

  lemma {:induction false} StreamsWorkUpdate(streams: seq<Stream>, i: nat, s: Stream)
    requires i < |streams|
    ensures StreamsWork(streams[i := s]) == StreamsWork(streams) - PagesWork(streams[i].pages) + PagesWork(s.pages)
  {
    var n, after := |streams| - 1, streams[i := s];
    if i == n {
      assert after[..n] == streams[..n];
    } else {
      StreamsWorkUpdate(streams[..n], i, s);
      assert after[..n] == streams[..n][i := s];
    }
  }

  lemma {:induction false} MoveLightens(id: BudgetId, m: Move, f: Phase)
    requires After(id, m, f).Some?
    ensures Weight(After(id, m, f).value) < Weight(f)
  {
  }

  lemma {:induction false} AdvanceLightens(f: Phase, f': Phase)
    requires Advances(f, f')
    ensures Weight(f') < Weight(f)
  {
  }

  lemma {:induction false} CoreStepUsesWork(g: System, a: Step)
    requires SysInv(g) && IsCore(g, a)
    ensures Work(Next(g, a)) < Work(g)
  {
    hide StreamInv, Tracks, DoLocal, CanLocal, After, Weight, PagesWork, StreamsWork;
    match a {
      case OnStream(i, l) =>
        var s, t, k := g.streams[i], DoLocal(g.streams[i], l), Target(g.streams[i], l).value;
        LocalCarries(s, l);
        AdvanceLightens(s.pages[k].phase, t.pages[k].phase);
        PagesWorkUpdate(s.pages, k, t.pages[k].phase);
        StreamsWorkUpdate(g.streams, i, t);
      case OnLease(id, p, m, at) =>
        var s := g.streams[p.stream];
        var f := After(id, m, s.pages[p.page].phase).value;
        MoveLightens(id, m, s.pages[p.page].phase);
        PagesWorkUpdate(s.pages, p.page, f);
        StreamsWorkUpdate(g.streams, p.stream, StreamAfterMove(s, p.page, id, m));
    }
  }

  lemma {:induction false} CoreCan(g: System, a: Step)
    requires IsCore(g, a)
    ensures Can(g, a)
  {
  }

  /** A run of core steps alone is bounded by the work its first state holds. */
  lemma {:induction false} CoreRunsAreBounded(states: seq<System>, steps: seq<Step>)
    requires |states| == |steps| + 1 && SysInv(states[0])
    requires forall n :: 0 <= n < |steps| ==> IsCore(states[n], steps[n]) && states[n + 1] == Next(states[n], steps[n])
    ensures |steps| + Work(states[|steps|]) <= Work(states[0])
    ensures SysInv(states[|steps|])
    decreases |steps|
  {
    hide SysInv, IsCore, Can, Next, Work;
    if |steps| > 0 {
      var n := |steps| - 1;
      assert IsCore(states[n], steps[n]);
      CoreCan(states[n], steps[n]);
      assert states[n + 1] == Next(states[n], steps[n]);
      CoreRunsAreBounded(states[..n + 1], steps[..n]);
      CoreStepUsesWork(states[n], steps[n]);
      StepKeeps(states[n], steps[n]);
    }
  }

  // ---- somebody can always take a core step ------------------------------

  /** `p` cannot move before `q` does: `q` stands in front of it in a line,
      `q` holds what the front waiter `p` needs, `q` is in front of it in the
      job channel, or `q` keeps a worker of its stream busy. */
  ghost predicate WaitsOn(g: System, p: PageId, q: PageId) {
    && SysInv(g) && Exists(g, p) && Exists(g, q)
    && (BehindInLine(g, p, q) || BlockedByHolder(g, p, q) || BehindInQueue(g, p, q))
  }

  ghost predicate BehindInLine(g: System, p: PageId, q: PageId)
    requires Exists(g, p)
  {
    exists id :: id in g.budgets && Waits(id, p, PhaseOf(g, p)) && q != p && LineFrontIs(g.budgets[id], q)
  }

  ghost predicate BlockedByHolder(g: System, p: PageId, q: PageId)
    requires Exists(g, p)
  {
    exists id :: id in g.budgets && Waits(id, p, PhaseOf(g, p)) && LineFrontIs(g.budgets[id], p)
      && !FrontFits(g.budgets[id]) && q in g.budgets[id].held
  }

  ghost predicate BehindInQueue(g: System, p: PageId, q: PageId)
    requires Exists(g, p) && Exists(g, q)
  {
    && PhaseOf(g, p).Queued? && q.stream == p.stream && |g.streams[p.stream].jobs| > 0
    && var front := g.streams[p.stream].jobs[0];
       if front != p.page then q.page == front else WorkerOf(PhaseOf(g, q)).Some?
  }

  /** Pages that wait for nobody. */
  predicate Free(f: Phase) {
    !Gone(f) && !f.InStreamLine? && !f.InProcessLine? && !f.Queued? && !f.InSlotLine?
  }

  function BudgetFor(p: PageId, f: Phase): BudgetId {
    if f.Validated? || f.InStreamLine? || f.BackingOut? || f.FreeingStream? then StreamBytes(p.stream)
    else if f.GotStreamBytes? || f.InProcessLine? || f.FreeingProcess? then ProcessBytes
    else CallSlots
  }

  lemma {:induction false} HeldCanBeReleased(g: System, id: BudgetId, p: PageId)
    requires SysInv(g) && id in g.budgets && Exists(g, p) && Holds(id, p, PhaseOf(g, p))
    ensures p in g.budgets[id].held && g.budgets[id].held[p] <= g.budgets[id].used
  {
    hide StreamInv, InOrder, Accounted;
    assert Tracks(g, id, g.budgets[id]);
    HeldFitsUsed(g.budgets[id], p);
  }

  lemma {:induction false} FreeMovesLease(g: System, p: PageId, m: Move) returns (a: Step)
    requires SysInv(g) && Exists(g, p) && Free(PhaseOf(g, p))
    requires m.ToLine? || m.GiveBack?
    requires After(BudgetFor(p, PhaseOf(g, p)), m, PhaseOf(g, p)).Some?
    ensures IsCore(g, a) && Mover(g, a) == p
  {
    hide Tracks, ReaderLinked, JobsLinked, LogLinked, WireLinked, Counted, Halts, Closing, Settles;
    var id := BudgetFor(p, PhaseOf(g, p));
    assert StreamInv(g.streams[p.stream]);
    if m.GiveBack? {
      HeldCanBeReleased(g, id, p);
    }
    a := OnLease(id, p, m, 0);
  }

  lemma {:induction false} FreeMovesLocal(g: System, p: PageId) returns (a: Step)
    requires SysInv(g) && Exists(g, p)
    requires var f := PhaseOf(g, p);
             f.GotBothBytes? || f.Announced? || f.Popped? || f.Calling? || f.Answered? || f.Published?
    ensures IsCore(g, a) && Mover(g, a) == p
  {
    hide Tracks, JobsLinked, LogLinked, WireLinked, Counted, Halts, Closing, Settles, DoLocal;
    var s, f := g.streams[p.stream], PhaseOf(g, p);
    assert StreamInv(s);
    var l :=
      if f.GotBothBytes? then ByReader(Announce) else if f.Announced? then ByReader(Enqueue)
      else ByWorker(f.worker, if f.Popped? then CheckHalt else if f.Calling? then WorkerAct.Answer(Document)
                              else if f.Answered? then Publish else Abort);
    a := OnStream(p.stream, l);
  }

  /** A page that waits for nobody can take its own next step. */
  lemma {:induction false} FreeMoves(g: System, p: PageId) returns (a: Step)
    requires SysInv(g) && Exists(g, p) && Free(PhaseOf(g, p))
    ensures IsCore(g, a) && Mover(g, a) == p
  {
    hide SysInv, IsCore, Mover;
    var f := PhaseOf(g, p);
    if f.Validated? || f.GotStreamBytes? || f.Cleared? {
      a := FreeMovesLease(g, p, ToLine);
    } else if f.BackingOut? || f.FreeingSlot? || f.FreeingProcess? || f.FreeingStream? {
      a := FreeMovesLease(g, p, GiveBack);
    } else {
      a := FreeMovesLocal(g, p);
    }
  }

  ghost predicate Chain(g: System, path: seq<PageId>) {
    |path| > 0 && forall n :: 0 <= n < |path| - 1 ==> WaitsOn(g, path[n], path[n + 1])
  }

  /** `path` leads from `p` along waits to a page that can move. */
  ghost predicate Resolves(g: System, p: PageId, path: seq<PageId>, a: Step, hops: nat) {
    Chain(g, path) && path[0] == p && |path| <= hops + 1 && IsCore(g, a) && Mover(g, a) == path[|path| - 1]
  }

  lemma {:induction false} Prepend(g: System, p: PageId, q: PageId, path: seq<PageId>, a: Step, hops: nat)
    requires WaitsOn(g, p, q) && Resolves(g, q, path, a, hops)
    ensures Resolves(g, p, [p] + path, a, hops + 1)
  {
    hide WaitsOn;
    var long := [p] + path;
    forall n | 0 <= n < |long| - 1 ensures WaitsOn(g, long[n], long[n + 1]) {
      if n > 0 {
        assert WaitsOn(g, path[n - 1], path[n]);
      }
    }
  }

  /** The front of the line `p` waits in: it can take its lease now, or some
      page holds what it needs. */
  lemma {:induction false} LineFront(g: System, id: BudgetId, p: PageId) returns (q: PageId, h: PageId)
    requires SysInv(g) && id in g.budgets && Exists(g, p) && Waits(id, p, PhaseOf(g, p))
    ensures Exists(g, q) && LineFrontIs(g.budgets[id], q) && Waits(id, q, PhaseOf(g, q))
    ensures q != p ==> WaitsOn(g, p, q)
    ensures !FrontFits(g.budgets[id]) ==> WaitsOn(g, q, h) && Exists(g, h) && Holds(id, h, PhaseOf(g, h))
  {
    hide StreamInv, InOrder, Accounted, Holds, Waits;
    var b := g.budgets[id];
    assert Tracks(g, id, b) && InLine(b, p);
    q := b.line[0].owner;
    h := q;
    assert LineFits(g, id, b, b.line[0]);
    assert q != p ==> BehindInLine(g, p, q);
    if !FrontFits(b) {
      h := BlockedFrontHasHolder(b);
      assert HeldFits(g, id, b, h);
      assert BlockedByHolder(g, q, h);
    }
  }

  lemma {:induction false} FrontTakes(g: System, id: BudgetId, q: PageId) returns (a: Step)
    requires SysInv(g) && id in g.budgets && Exists(g, q) && Waits(id, q, PhaseOf(g, q))
    requires LineFrontIs(g.budgets[id], q) && FrontFits(g.budgets[id])
    ensures IsCore(g, a) && Mover(g, a) == q
  {
    hide StreamInv, Tracks;
    a := OnLease(id, q, ToLease, 0);
  }

  lemma {:induction false} Now(g: System, p: PageId, a: Step)
    requires IsCore(g, a) && Mover(g, a) == p
    ensures Resolves(g, p, [p], a, 0)
  {
  }

  /** From a waiting page to its line's front, and on to the holder that blocks
      the front, if any. */
  lemma {:induction false} ThroughLine(g: System, id: BudgetId, p: PageId, q: PageId, h: PageId, rest: seq<PageId>,
      b: Step, hops: nat)
      returns (path: seq<PageId>, a: Step)
    requires SysInv(g) && id in g.budgets && Exists(g, q) && Waits(id, q, PhaseOf(g, q))
    requires LineFrontIs(g.budgets[id], q) && (q != p ==> WaitsOn(g, p, q))
    requires !FrontFits(g.budgets[id]) ==> WaitsOn(g, q, h) && Resolves(g, h, rest, b, hops)
    ensures Resolves(g, p, path, a, hops + 2)
  {
    hide SysInv, WaitsOn, Resolves;
    if FrontFits(g.budgets[id]) {
      a := FrontTakes(g, id, q);
      Now(g, q, a);
      path := [q];
    } else {
      a := b;
      Prepend(g, q, h, rest, a, hops);
      path := [q] + rest;
    }
    Loosen(g, q, path, a, hops + 1);
    if q != p {
      Prepend(g, p, q, path, a, hops + 1);
      path := [p] + path;
    }
    Loosen(g, p, path, a, hops + 2);
  }

  lemma {:induction false} HasBudgets(g: System)
    requires SysInv(g)
    ensures ProcessBytes in g.budgets && CallSlots in g.budgets
    ensures forall i :: 0 <= i < |g.streams| ==> StreamBytes(i) in g.budgets
  {
    hide StreamInv, Tracks;
  }

  /** A page with a worker moves within two hops: slots are held only by pages
      that wait for nobody. */
  lemma {:induction false} WithWorkerResolves(g: System, p: PageId) returns (path: seq<PageId>, a: Step)
    requires SysInv(g) && Exists(g, p) && WorkerOf(PhaseOf(g, p)).Some?
    ensures Resolves(g, p, path, a, 2)
  {
    hide SysInv, IsCore, Mover, WaitsOn, Resolves;
    HasBudgets(g);
    if PhaseOf(g, p).InSlotLine? {
      var q, h := LineFront(g, CallSlots, p);
      var b := OnLease(CallSlots, p, ToLease, 0);
      if !FrontFits(g.budgets[CallSlots]) {
        b := FreeMoves(g, h);
        Now(g, h, b);
      }
      path, a := ThroughLine(g, CallSlots, p, q, h, [h], b, 0);
    } else {
      a := FreeMoves(g, p);
      Now(g, p, a);
      path := [p];
      Loosen(g, p, path, a, 2);
    }
  }

  /** A queued page moves within four hops: an idle worker takes the front job,
      or every worker is busy with a page that resolves. */
  lemma {:induction false} QueuedResolves(g: System, p: PageId) returns (path: seq<PageId>, a: Step)
    requires SysInv(g) && Exists(g, p) && PhaseOf(g, p).Queued?
    ensures Resolves(g, p, path, a, 4)
  {
    hide Tracks, LogLinked, WireLinked, Counted, Halts, Settles, Resolves;
    var s := g.streams[p.stream];
    assert StreamInv(s) && p.page in s.jobs;
    var front := PageId(p.stream, s.jobs[0]);
    if s.workers[0].Idle? {
      a := OnStream(p.stream, ByWorker(0, Pop));
      Now(g, front, a);
      path := [front];
    } else {
      assert s.workers[0].Busy?;
      var q := PageId(p.stream, s.workers[0].page);
      assert BehindInQueue(g, front, q);
      path, a := WithWorkerResolves(g, q);
      Prepend(g, front, q, path, a, 2);
      path := [front] + path;
    }
    Loosen(g, front, path, a, 3);
    if front != p {
      assert BehindInQueue(g, p, front);
      Prepend(g, p, front, path, a, 3);
      path := [p] + path;
    }
    Loosen(g, p, path, a, 4);
  }

  lemma {:induction false} Loosen(g: System, p: PageId, path: seq<PageId>, a: Step, hops: nat)
    requires exists n: nat :: n <= hops && Resolves(g, p, path, a, n)
    ensures Resolves(g, p, path, a, hops)
  {
  }

  /** What blocks the front of a bytes line is a page beyond that line. */
  lemma {:induction false} HolderResolves(g: System, id: BudgetId, q: PageId, h: PageId)
      returns (path: seq<PageId>, a: Step)
    requires SysInv(g) && Exists(g, q) && Exists(g, h) && !id.CallSlots?
    requires Waits(id, q, PhaseOf(g, q)) && Holds(id, h, PhaseOf(g, h))
    ensures Resolves(g, h, path, a, 4)
  {
    hide Resolves, IsCore, Mover, Tracks, WorkersLinked, JobsLinked, LogLinked, WireLinked, Counted, Halts, Closing,
         Settles;
    var f := PhaseOf(g, h);
    assert id.StreamBytes? ==> !WithReader(f) by {
      assert StreamInv(g.streams[h.stream]);
    }
    if f.Queued? {
      path, a := QueuedResolves(g, h);
    } else {
      if WorkerOf(f).Some? {
        path, a := WithWorkerResolves(g, h);
      } else {
        a := FreeMoves(g, h);
        Now(g, h, a);
        path := [h];
      }
      Loosen(g, h, path, a, 4);
    }
  }

  lemma {:induction false} BytesLineResolves(g: System, id: BudgetId, p: PageId) returns (path: seq<PageId>, a: Step)
    requires SysInv(g) && id in g.budgets && !id.CallSlots? && Exists(g, p) && Waits(id, p, PhaseOf(g, p))
    ensures Resolves(g, p, path, a, 6)
  {
    hide SysInv, IsCore, Mover, WaitsOn, Resolves;
    var q, h := LineFront(g, id, p);
    var rest, b := [h], OnLease(id, p, ToLease, 0);
    if !FrontFits(g.budgets[id]) {
      rest, b := HolderResolves(g, id, q, h);
    }
    path, a := ThroughLine(g, id, p, q, h, rest, b, 4);
  }

  /** Deadlock freedom, page by page: from any page still in the system, at most
      six waits lead to a page that can take a step now. */
  lemma {:induction false} EveryPageResolves(g: System, p: PageId) returns (path: seq<PageId>, a: Step)
    requires SysInv(g) && Exists(g, p) && !Gone(PhaseOf(g, p))
    ensures Resolves(g, p, path, a, 6)
  {
    hide SysInv, IsCore, Mover, Resolves;
    HasBudgets(g);
    var f := PhaseOf(g, p);
    if f.InStreamLine? {
      path, a := BytesLineResolves(g, StreamBytes(p.stream), p);
    } else if f.InProcessLine? {
      path, a := BytesLineResolves(g, ProcessBytes, p);
    } else {
      if f.Queued? {
        path, a := QueuedResolves(g, p);
      } else if WorkerOf(f).Some? {
        path, a := WithWorkerResolves(g, p);
      } else {
        a := FreeMoves(g, p);
        Now(g, p, a);
        path := [p];
      }
      Loosen(g, p, path, a, 6);
    }
  }

  // ---- waits never form a cycle ------------------------------------------

  ghost predicate FrontOf(g: System, id: BudgetId, p: PageId) {
    id in g.budgets && LineFrontIs(g.budgets[id], p)
  }

  /** How far a page is from moving on its own: waits lead downwards. */
  ghost function Rank(g: System, p: PageId): nat
    requires Exists(g, p)
  {
    var f, jobs := PhaseOf(g, p), g.streams[p.stream].jobs;
    if f.InStreamLine? then if FrontOf(g, StreamBytes(p.stream), p) then 7 else 8
    else if f.InProcessLine? then if FrontOf(g, ProcessBytes, p) then 5 else 6
    else if f.Queued? then if |jobs| > 0 && jobs[0] == p.page then 3 else 4
    else if f.InSlotLine? then if FrontOf(g, CallSlots, p) then 1 else 2
    else 0
  }

  function Base(id: BudgetId): nat {
    match id
    case StreamBytes(_) => 7
    case ProcessBytes => 5
    case CallSlots => 1
  }

  lemma {:induction false} WaiterRank(g: System, id: BudgetId, p: PageId)
    requires Exists(g, p) && id in g.budgets && Waits(id, p, PhaseOf(g, p))
    ensures Rank(g, p) == Base(id) + if LineFrontIs(g.budgets[id], p) then 0 else 1
  {
  }

  /** What a page holds it no longer waits for, nor anything before it. */
  lemma {:induction false} HeldRank(g: System, id: BudgetId, p: PageId)
    requires Exists(g, p) && Holds(id, p, PhaseOf(g, p))
    ensures Rank(g, p) < Base(id)
  {
  }

  lemma {:induction false} LineRank(g: System, p: PageId, q: PageId)
    requires SysInv(g) && Exists(g, p) && Exists(g, q) && BehindInLine(g, p, q)
    ensures Rank(g, q) < Rank(g, p)
  {
    hide StreamInv, Ledgers.Valid, Rank, Waits, Holds;
    var id :| id in g.budgets && Waits(id, p, PhaseOf(g, p)) && q != p && LineFrontIs(g.budgets[id], q);
    assert Tracks(g, id, g.budgets[id]);
    assert LineFits(g, id, g.budgets[id], g.budgets[id].line[0]);
    WaiterRank(g, id, p);
    WaiterRank(g, id, q);
  }

  lemma {:induction false} HolderRank(g: System, p: PageId, q: PageId)
    requires SysInv(g) && Exists(g, p) && Exists(g, q) && BlockedByHolder(g, p, q)
    ensures Rank(g, q) < Rank(g, p)
  {
    hide StreamInv, Ledgers.Valid, Rank, Waits, Holds;
    var id :| id in g.budgets && Waits(id, p, PhaseOf(g, p)) && LineFrontIs(g.budgets[id], p)
      && !FrontFits(g.budgets[id]) && q in g.budgets[id].held;
    assert Tracks(g, id, g.budgets[id]);
    assert HeldFits(g, id, g.budgets[id], q);
    WaiterRank(g, id, p);
    HeldRank(g, id, q);
  }

  lemma {:induction false} QueueRank(g: System, p: PageId, q: PageId)
    requires SysInv(g) && Exists(g, p) && Exists(g, q) && BehindInQueue(g, p, q)
    ensures Rank(g, q) < Rank(g, p)
  {
    hide Tracks, WorkersLinked, ReaderLinked, LogLinked, WireLinked, Counted, Halts, Closing, Settles;
    var s := g.streams[p.stream];
    assert StreamInv(s);
    assert s.pages[s.jobs[0]].phase.Queued?;
  }

  /** Every wait leads to a lower rank: stream bytes, then process bytes, then the job
      channel, then call slots; in each line from behind to the front. */
  lemma {:induction false} WaitsDescend(g: System, p: PageId, q: PageId)
    requires WaitsOn(g, p, q)
    ensures Exists(g, p) && Exists(g, q) && Rank(g, q) < Rank(g, p)
  {
    hide SysInv, Rank, BehindInLine, BlockedByHolder, BehindInQueue;
    if BehindInLine(g, p, q) {
      LineRank(g, p, q);
    } else if BlockedByHolder(g, p, q) {
      HolderRank(g, p, q);
    } else {
      QueueRank(g, p, q);
    }
  }

  /** No chain of waits, however it is chosen, meets a page twice or is longer than
      nine pages: waits never form a cycle, within a stream or across streams. */
  lemma {:induction false} WaitsNeverCycle(g: System, path: seq<PageId>)
    requires Chain(g, path) && |path| > 1
    ensures forall n :: 0 <= n < |path| ==> Exists(g, path[n])
    ensures forall m, n :: 0 <= m < n < |path| ==> path[m] != path[n] && Rank(g, path[n]) + (n - m) <= Rank(g, path[m])
    ensures |path| <= 9
    decreases |path|
  {
    hide WaitsOn, Rank;
    var last := |path| - 1;
    assert WaitsOn(g, path[last - 1], path[last]);
    WaitsDescend(g, path[last - 1], path[last]);
    if |path| > 2 {
      var front := path[..last];
      forall n | 0 <= n < |front| - 1 ensures WaitsOn(g, front[n], front[n + 1]) {
        assert WaitsOn(g, path[n], path[n + 1]);
      }
      WaitsNeverCycle(g, front);
      assert forall n :: 0 <= n < last ==> path[n] == front[n];
    }
    RankIsSmall(g, path[0]);
  }

  lemma {:induction false} RankIsSmall(g: System, p: PageId)
    requires Exists(g, p)
    ensures Rank(g, p) <= 8
  {
  }

  /** In a state of a run where no core step is left, no page waits for anything:
      every page of every stream is gone and every budget is empty. Together
      with `CoreRunsAreBounded`, no page waits for ever on a lease, on the job
      channel or on a worker. */
  lemma {:induction false} NothingLeftMeansNobodyWaits(states: seq<System>, steps: seq<Step>, n: nat)
    requires IsRun(states, steps) && n < |states|
    requires forall a :: !IsCore(states[n], a)
    ensures forall p :: Exists(states[n], p) ==> Gone(PhaseOf(states[n], p))
    ensures forall id :: id in states[n].budgets ==> states[n].budgets[id].used == 0 && states[n].budgets[id].line == []
  {
    hide IsRun, SysInv, IsCore;
    EveryRunKeeps(states, steps, n);
    NobodyWaits(states[n]);
  }

  lemma {:induction false} NobodyWaits(g: System)
    requires SysInv(g) && forall a :: !IsCore(g, a)
    ensures forall p :: Exists(g, p) ==> Gone(PhaseOf(g, p))
    ensures forall id :: id in g.budgets ==> g.budgets[id].used == 0 && g.budgets[id].line == []
  {
    hide StreamInv, IsCore, InOrder, Accounted, Balanced;
    forall p | Exists(g, p) ensures Gone(PhaseOf(g, p)) {
      if !Gone(PhaseOf(g, p)) {
        var path, a := EveryPageResolves(g, p);
      }
    }
    forall id | id in g.budgets ensures g.budgets[id].used == 0 && g.budgets[id].line == [] {
      IdleBudget(g, id);
    }
  }

  lemma {:induction false} IdleBudget(g: System, id: BudgetId)
    requires SysInv(g) && id in g.budgets && forall p :: Exists(g, p) ==> Gone(PhaseOf(g, p))
    ensures g.budgets[id].used == 0 && g.budgets[id].line == []
  {
    hide StreamInv, Ledgers.Valid, Gone, Holds, Waits;
    var b := g.budgets[id];
    assert Tracks(g, id, b);
    forall p ensures p !in b.held {
      GoneHoldsNothing(id, p, if Exists(g, p) then PhaseOf(g, p) else Skipped);
      assert p in b.held ==> HeldFits(g, id, b, p);
    }
    assert b.held == map[];
    NothingHeld(b);
    if |b.line| > 0 {
      var p := b.line[0].owner;
      assert LineFits(g, id, b, b.line[0]);
      GoneHoldsNothing(id, p, PhaseOf(g, p));
    }
  }
}
