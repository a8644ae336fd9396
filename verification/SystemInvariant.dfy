/** What every step keeps across streams: the budgets agree with the pages. */
module SystemInvariant {
  import opened Common
  import opened Pipeline
  import opened Ledgers
  import opened StreamInvariant

  ghost predicate HeldFits(g: System, id: BudgetId, b: Ledger<PageId>, p: PageId) {
    && Exists(g, p) && Holds(id, p, PhaseOf(g, p))
    && p in b.held && b.held[p] == Clamp(Asks(g, id, p), 1, b.capacity)
  }

  ghost predicate LineFits(g: System, id: BudgetId, b: Ledger<PageId>, w: Waiter<PageId>) {
    && Exists(g, w.owner) && Waits(id, w.owner, PhaseOf(g, w.owner))
    && w.amount == Clamp(Asks(g, id, w.owner), 1, b.capacity)
  }

  /** A budget's live leases and its line are those the phases call for. */
  ghost predicate Tracks(g: System, id: BudgetId, b: Ledger<PageId>) {
    && Ledgers.Valid(b)
    && (forall p :: p in b.held ==> HeldFits(g, id, b, p))
    && (forall j :: 0 <= j < |b.line| ==> LineFits(g, id, b, b.line[j]))
    && (forall p :: Exists(g, p) && Holds(id, p, PhaseOf(g, p)) ==> p in b.held)
    && (forall p :: Exists(g, p) && Waits(id, p, PhaseOf(g, p)) ==> InLine(b, p))
  }

  ghost predicate SysInv(g: System) {
    && ProcessBytes in g.budgets && CallSlots in g.budgets
    && (forall id :: id in g.budgets && id.StreamBytes? ==> id.stream < |g.streams|)
    && (forall i :: 0 <= i < |g.streams| ==> StreamBytes(i) in g.budgets && StreamInv(g.streams[i]))
    && (forall id :: id in g.budgets ==> Tracks(g, id, g.budgets[id]))
  }

  // ---- steps that leave a budget alone -----------------------------------

  /** From `g` to `h` no page changes what it holds of `id` or waits for. */
  ghost predicate Quiet(g: System, h: System, id: BudgetId) {
    && (forall p :: Exists(g, p) ==>
          && Exists(h, p) && Asks(h, id, p) == Asks(g, id, p)
          && Holds(id, p, PhaseOf(h, p)) == Holds(id, p, PhaseOf(g, p))
          && Waits(id, p, PhaseOf(h, p)) == Waits(id, p, PhaseOf(g, p)))
    && (forall p :: Exists(h, p) && !Exists(g, p) ==> !Holds(id, p, PhaseOf(h, p)) && !Waits(id, p, PhaseOf(h, p)))
  }

  lemma {:induction false} QuietTracks(g: System, h: System, id: BudgetId, b: Ledger<PageId>)
    requires Tracks(g, id, b) && Quiet(g, h, id)
    ensures Tracks(h, id, b)
  {
    hide Ledgers.Valid, Holds, Waits, Asks, InLine;
    forall p | p in b.held ensures HeldFits(h, id, b, p) {
      assert HeldFits(g, id, b, p);
    }
    forall j | 0 <= j < |b.line| ensures LineFits(h, id, b, b.line[j]) {
      assert LineFits(g, id, b, b.line[j]);
    }
  }

  predicate SameLeases(f: Phase, f': Phase) {
    && HoldsStream(f) == HoldsStream(f') && HoldsProcess(f) == HoldsProcess(f') && HoldsSlot(f) == HoldsSlot(f')
    && f.InStreamLine? == f'.InStreamLine? && f.InProcessLine? == f'.InProcessLine? && f.InSlotLine? == f'.InSlotLine?
  }

  predicate Grows(s: Stream, t: Stream) {
    && |s.pages| <= |t.pages|
    && (forall k :: 0 <= k < |s.pages| ==>
          t.pages[k].bytes == s.pages[k].bytes && SameLeases(s.pages[k].phase, t.pages[k].phase))
    && (forall k :: |s.pages| <= k < |t.pages| ==> t.pages[k].phase.Validated?)
  }

  lemma {:induction false} RepaintGrows(s: Stream, k: nat, f: Phase, t: Stream)
    requires k < |s.pages| && SameLeases(s.pages[k].phase, f) && t.pages == Repaint(s.pages, k, f)
    ensures Grows(s, t)
  {
  }

  predicate Advances(f: Phase, f': Phase) {
    match f
    case GotBothBytes => f'.Announced?
    case Announced => f'.Queued?
    case Queued => f'.Popped?
    case Popped(_) => f'.Cleared? || f'.FreeingProcess?
    case Calling(_) => f'.Answered? || f'.FreeingSlot?
    case Answered(_, _) => f'.Published?
    case Published(_, _) => f'.FreeingSlot?
    case _ => false
  }

  /** The page a thread carries one phase further between lease steps. */
  function Target(s: Stream, a: Local): Option<nat>
    requires CanLocal(s, a)
  {
    match a
    case ByReader(r) => if r.Announce? || r.Enqueue? then Some(|s.pages| - 1) else None
    case ByWorker(w, x) => if x.Exit? then None else if x.Pop? then Some(s.jobs[0]) else Some(s.workers[w].page)
    case ByWriter(_) => None
  }

  ghost predicate Carried(s: Stream, t: Stream, k: nat) {
    && k < |s.pages| && |t.pages| == |s.pages|
    && Advances(s.pages[k].phase, t.pages[k].phase) && t.pages == Repaint(s.pages, k, t.pages[k].phase)
  }

  lemma {:induction false} ReaderCarries(s: Stream)
    ensures CanReader(s, Announce) ==> Carried(s, DoReader(s, Announce), |s.pages| - 1)
    ensures CanReader(s, Enqueue) ==> Carried(s, DoReader(s, Enqueue), |s.pages| - 1)
  {
  }

  lemma {:induction false} WorkerPops(s: Stream, w: nat)
    requires JobsLinked(s.jobs, s.pages) && CanWorker(s, w, Pop)
    ensures Carried(s, DoWorker(s, w, Pop), s.jobs[0])
  {
  }

  lemma {:induction false} WorkerAnswers(s: Stream, w: nat, x: Answer)
    requires CanWorker(s, w, WorkerAct.Answer(x))
    ensures Carried(s, DoWorker(s, w, WorkerAct.Answer(x)), s.workers[w].page)
  {
  }

  lemma {:induction false} WorkerCarries(s: Stream, w: nat)
    ensures CanWorker(s, w, CheckHalt) ==> Carried(s, DoWorker(s, w, CheckHalt), s.workers[w].page)
    ensures CanWorker(s, w, Publish) ==> Carried(s, DoWorker(s, w, Publish), s.workers[w].page)
    ensures CanWorker(s, w, Abort) ==> Carried(s, DoWorker(s, w, Abort), s.workers[w].page)
  {
  }

  lemma {:induction false} LocalCarries(s: Stream, a: Local)
    requires StreamInv(s) && CanLocal(s, a) && Target(s, a).Some?
    ensures Carried(s, DoLocal(s, a), Target(s, a).value)
  {
    hide DoReader, DoWorker, DoWriter, Carried, WorkersLinked, ReaderLinked, LogLinked, WireLinked, Counted, Halts,
         Closing, Settles;
    if a.ByWorker? && a.act.Pop? {
      WorkerPops(s, a.worker);
    } else if a.ByWorker? && a.act.Answer? {
      WorkerAnswers(s, a.worker, a.act.answer);
    } else if a.ByWorker? {
      WorkerCarries(s, a.worker);
    } else {
      ReaderCarries(s);
    }
  }

  lemma {:induction false} ReaderKeepsPages(s: Stream, a: ReaderAct)
    requires CanReader(s, a) && !a.Read? && !a.Announce? && !a.Enqueue?
    ensures DoReader(s, a).pages == s.pages
  {
  }

  lemma {:induction false} WriterKeepsPages(s: Stream, a: WriterAct)
    requires CanWriter(s, a)
    ensures DoWriter(s, a).pages == s.pages
  {
  }

  /** Leases and lines are untouched by what threads do between lease steps. */
  lemma {:induction false} LocalIsQuiet(s: Stream, a: Local)
    requires StreamInv(s) && CanLocal(s, a)
    ensures Grows(s, DoLocal(s, a))
  {
    hide StreamInv, Grows, SameLeases;
    if Target(s, a).Some? {
      hide DoLocal, CanLocal;
      var t, k := DoLocal(s, a), Target(s, a).value;
      LocalCarries(s, a);
      AdvanceKeepsLeases(s.pages[k].phase, t.pages[k].phase);
      RepaintGrows(s, k, t.pages[k].phase, t);
    } else if a.ByReader? && a.reader.Read? {
      ReadGrows(s, a.reader.message);
    } else {
      if a.ByReader? {
        ReaderKeepsPages(s, a.reader);
      } else if a.ByWriter? {
        WriterKeepsPages(s, a.writer);
      }
      SamePagesGrow(s, DoLocal(s, a));
    }
  }

  lemma {:induction false} AdvanceKeepsLeases(f: Phase, f': Phase)
    requires Advances(f, f')
    ensures SameLeases(f, f')
  {
  }

  lemma {:induction false} ReadGrows(s: Stream, m: Message)
    ensures Grows(s, DoRead(s, m))
  {
  }

  lemma {:induction false} SamePagesGrow(s: Stream, t: Stream)
    requires t.pages == s.pages
    ensures Grows(s, t)
  {
  }

  lemma {:induction false} LocalStep(g: System, i: nat, a: Local)
    requires SysInv(g) && Can(g, OnStream(i, a))
    ensures SysInv(Next(g, OnStream(i, a)))
  {
    hide StreamInv, Tracks, DoLocal, CanLocal;
    var h := Next(g, OnStream(i, a));
    LocalKeeps(g.streams[i], a);
    forall id | id in h.budgets ensures Tracks(h, id, h.budgets[id]) {
      LocalIsQuiet(g.streams[i], a);
      assert Quiet(g, h, id);
      QuietTracks(g, h, id, g.budgets[id]);
    }
  }

  // ---- lease steps -------------------------------------------------------

  /** What move `m` on `id` changes about its own page, and for no other
      budget. */
  lemma {:induction false} AfterEffect(id: BudgetId, p: PageId, m: Move, f: Phase)
    requires After(id, m, f).Some? && (id.StreamBytes? ==> id.stream == p.stream)
    ensures var f' := After(id, m, f).value;
            && (forall x :: x != id ==> Holds(x, p, f') == Holds(x, p, f) && Waits(x, p, f') == Waits(x, p, f))
            && Holds(id, p, f) == m.GiveBack? && Holds(id, p, f') == m.ToLease?
            && Waits(id, p, f) == (m.ToLease? || m.OutOfLine?) && Waits(id, p, f') == m.ToLine?
  {
  }

  /** `h` is `g` with page `p` in phase `f`. */
  ghost predicate Repainted(g: System, h: System, p: PageId, f: Phase) {
    && Exists(g, p)
    && (forall q :: Exists(g, q) <==> Exists(h, q))
    && (forall q :: Exists(g, q) ==> h.streams[q.stream].pages[q.page].bytes == g.streams[q.stream].pages[q.page].bytes)
    && (forall q :: Exists(g, q) ==> PhaseOf(h, q) == if q == p then f else PhaseOf(g, q))
  }

  lemma {:induction false} MoveRepaints(g: System, id: BudgetId, p: PageId, m: Move, at: nat)
    requires CanMove(g, id, p, m, at)
    ensures Repainted(g, DoMove(g, id, p, m, at), p, After(id, m, PhaseOf(g, p)).value)
  {
    var h := DoMove(g, id, p, m, at);
    assert h.streams[p.stream].pages == Repaint(g.streams[p.stream].pages, p.page, After(id, m, PhaseOf(g, p)).value);
  }

  lemma {:induction false} JoinTracks(g: System, h: System, id: BudgetId, b: Ledger<PageId>, p: PageId, f: Phase)
    requires Tracks(g, id, b) && Repainted(g, h, p, f)
    requires !Holds(id, p, PhaseOf(g, p)) && !Waits(id, p, PhaseOf(g, p)) && !Holds(id, p, f) && Waits(id, p, f)
    ensures Tracks(h, id, Join(b, p, Asks(g, id, p)))
  {
    hide Ledgers.Valid, Holds, Waits, InLine;
    var c := Join(b, p, Asks(g, id, p));
    NotWaiting(g, id, b, p);
    assert p !in b.held by {
      assert p in b.held ==> HeldFits(g, id, b, p);
    }
    JoinKeeps(b, p, Asks(g, id, p));
    forall q | q in c.held ensures HeldFits(h, id, c, q) {
      assert HeldFits(g, id, b, q);
    }
    forall j | 0 <= j < |c.line| ensures LineFits(h, id, c, c.line[j]) {
      if j < |b.line| {
        assert LineFits(g, id, b, b.line[j]);
      }
    }
  }

  lemma {:induction false} NotWaiting(g: System, id: BudgetId, b: Ledger<PageId>, p: PageId)
    requires Tracks(g, id, b) && (Exists(g, p) ==> !Waits(id, p, PhaseOf(g, p)))
    ensures !InLine(b, p)
  {
    forall j | 0 <= j < |b.line| ensures b.line[j].owner != p {
      assert LineFits(g, id, b, b.line[j]);
    }
  }

  lemma {:induction false} TakeTracks(g: System, h: System, id: BudgetId, b: Ledger<PageId>, p: PageId, f: Phase)
    requires Tracks(g, id, b) && Repainted(g, h, p, f) && LineFrontIs(b, p) && FrontFits(b)
    requires Holds(id, p, f) && !Waits(id, p, f)
    ensures Tracks(h, id, Take(b))
  {
    hide Ledgers.Valid, Holds, Waits, InLine;
    var c := Take(b);
    TakeKeeps(b);
    LineHoldsNothing(b);
    assert LineFits(g, id, b, b.line[0]);
    forall q | q in c.held ensures HeldFits(h, id, c, q) {
      assert q != p ==> HeldFits(g, id, b, q);
    }
    forall j | 0 <= j < |c.line| ensures LineFits(h, id, c, c.line[j]) {
      assert LineFits(g, id, b, b.line[j + 1]);
    }
  }

  lemma {:induction false} LeaveTracks(g: System, h: System, id: BudgetId, b: Ledger<PageId>, p: PageId,
      f: Phase, at: nat)
    requires Tracks(g, id, b) && Repainted(g, h, p, f) && at < |b.line| && b.line[at].owner == p
    requires !Holds(id, p, PhaseOf(g, p)) && !Holds(id, p, f) && !Waits(id, p, f)
    ensures Tracks(h, id, LeaveAt(b, at))
  {
    hide Ledgers.Valid, Holds, Waits, InLine;
    var c := LeaveAt(b, at);
    LeaveKeeps(b, at);
    LineHoldsNothing(b);
    forall q | q in c.held ensures HeldFits(h, id, c, q) {
      assert HeldFits(g, id, b, q);
    }
    forall j | 0 <= j < |c.line| ensures LineFits(h, id, c, c.line[j]) {
      assert LineFits(g, id, b, b.line[if j < at then j else j + 1]);
    }
  }

  lemma {:induction false} ReleaseTracks(g: System, h: System, id: BudgetId, b: Ledger<PageId>, p: PageId, f: Phase)
    requires Tracks(g, id, b) && Repainted(g, h, p, f) && p in b.held && b.held[p] <= b.used
    requires !Waits(id, p, PhaseOf(g, p)) && !Holds(id, p, f) && !Waits(id, p, f)
    ensures Tracks(h, id, Release(b, p))
  {
    hide Ledgers.Valid, Holds, Waits, InLine;
    var c := Release(b, p);
    ReleaseKeeps(b, p);
    LineHoldsNothing(b);
    forall q | q in c.held ensures HeldFits(h, id, c, q) {
      assert HeldFits(g, id, b, q);
    }
    forall j | 0 <= j < |c.line| ensures LineFits(h, id, c, c.line[j]) {
      assert LineFits(g, id, b, b.line[j]);
    }
  }

  lemma {:induction false} MovedBudgetTracks(g: System, id: BudgetId, p: PageId, m: Move, at: nat)
    requires CanMove(g, id, p, m, at) && Tracks(g, id, g.budgets[id])
    ensures Tracks(DoMove(g, id, p, m, at), id, BudgetAfter(g, id, p, m, at))
  {
    hide Tracks, Repainted, Holds, Waits, DoMove, After;
    var h, b, f := DoMove(g, id, p, m, at), g.budgets[id], After(id, m, PhaseOf(g, p)).value;
    AfterEffect(id, p, m, PhaseOf(g, p));
    MoveRepaints(g, id, p, m, at);
    match m
    case ToLine => JoinTracks(g, h, id, b, p, f);
    case ToLease => TakeTracks(g, h, id, b, p, f);
    case OutOfLine => LeaveTracks(g, h, id, b, p, f, at);
    case GiveBack => ReleaseTracks(g, h, id, b, p, f);
  }

  lemma {:induction false} OtherBudgetTracks(g: System, id: BudgetId, p: PageId, m: Move, at: nat, other: BudgetId)
    requires CanMove(g, id, p, m, at) && other != id && other in g.budgets && Tracks(g, other, g.budgets[other])
    ensures Tracks(DoMove(g, id, p, m, at), other, g.budgets[other])
  {
    hide Tracks, Holds, Waits, DoMove, After;
    AfterEffect(id, p, m, PhaseOf(g, p));
    MoveRepaints(g, id, p, m, at);
    assert Quiet(g, DoMove(g, id, p, m, at), other);
    QuietTracks(g, DoMove(g, id, p, m, at), other, g.budgets[other]);
  }

  lemma {:induction false} LeaseStep(g: System, id: BudgetId, p: PageId, m: Move, at: nat)
    requires SysInv(g) && CanMove(g, id, p, m, at)
    ensures SysInv(DoMove(g, id, p, m, at))
  {
    hide StreamInv, Tracks, After;
    var h := DoMove(g, id, p, m, at);
    MoveKeeps(g.streams[p.stream], p.page, id, m);
    forall x | x in h.budgets ensures Tracks(h, x, h.budgets[x]) {
      if x == id {
        MovedBudgetTracks(g, id, p, m, at);
      } else {
        OtherBudgetTracks(g, id, p, m, at, x);
      }
    }
  }

  // ---- new streams -------------------------------------------------------

  lemma {:induction false} AddStep(g: System, s: Stream)
    requires SysInv(g) && StreamInv(s) && s.pages == []
    ensures SysInv(AddStream(g, s))
  {
    hide StreamInv, Tracks;
    var h, mine := AddStream(g, s), StreamBytes(|g.streams|);
    forall id | id in h.budgets ensures Tracks(h, id, h.budgets[id]) {
      if id == mine {
        FreshTracks(h, mine, s.config.streamBytes);
      } else {
        assert Quiet(g, h, id);
        QuietTracks(g, h, id, g.budgets[id]);
      }
    }
  }

  lemma {:induction false} FreshTracks(g: System, id: BudgetId, capacity: nat)
    requires forall p :: Exists(g, p) ==> !Holds(id, p, PhaseOf(g, p)) && !Waits(id, p, PhaseOf(g, p))
    ensures Tracks(g, id, Fresh(capacity))
  {
    FreshValid<PageId>(capacity);
  }

  // ---- every reachable state ---------------------------------------------

  lemma {:induction false} InitHolds(processBytes: nat, slots: nat)
    ensures SysInv(Init(processBytes, slots))
  {
    hide Tracks;
    var g := Init(processBytes, slots);
    FreshTracks(g, ProcessBytes, processBytes);
    FreshTracks(g, CallSlots, slots);
  }

  lemma {:induction false} StepKeeps(g: System, a: Step)
    requires SysInv(g) && Can(g, a)
    ensures SysInv(Next(g, a))
  {
    hide SysInv;
    match a
    case Open(config) => NewStreamFine(config); AddStep(g, NewStream(config));
    case Reject(code) => RejectedCallFine(code); AddStep(g, RejectedCall(code));
    case OnStream(i, l) => LocalStep(g, i, l);
    case OnLease(id, p, m, at) => LeaseStep(g, id, p, m, at);
  }

  /** The invariant holds in every state of every run. */
  lemma {:induction false} EveryRunKeeps(states: seq<System>, steps: seq<Step>, n: nat)
    requires IsRun(states, steps) && n < |states|
    ensures SysInv(states[n])
    decreases n
  {
    if n == 0 {
      var processBytes: nat, slots: nat :| states[0] == Init(processBytes, slots);
      InitHolds(processBytes, slots);
    } else {
      EveryRunKeeps(states, steps, n - 1);
      assert Can(states[n - 1], steps[n - 1]) && states[n - 1 + 1] == Next(states[n - 1], steps[n - 1]);
      StepKeeps(states[n - 1], steps[n - 1]);
    }
  }

  lemma {:induction false} GoneHoldsNothing(id: BudgetId, p: PageId, f: Phase)
    ensures Gone(f) ==> !Holds(id, p, f) && !Waits(id, p, f)
  {
  }
}
