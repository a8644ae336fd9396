/** What the pipeline guarantees over every run. */
module PipelineTheorems {
  import opened Common
  import opened Pipeline
  import opened Ledgers
  import opened StreamInvariant
  import opened SystemInvariant

  // ---- what an OK status means -------------------------------------------

  /** The events about page `k`: its start, later its one answer, of the given
      kind, nothing else. */
  ghost predicate DeliveredOnce(wire: seq<Event>, k: nat, number: nat, failed: bool) {
    exists i, j :: 0 <= i < j < |wire|
      && wire[i] == PageStarted(k, number) && wire[j] == PageAnswer(k, number, failed)
      && forall n :: 0 <= n < |wire| && wire[n].page == k ==> n == i || n == j
  }

  /** A returned stream has no page left anywhere, whichever way it ended. */
  lemma {:induction false} ReturnedLeavesNoPage(s: Stream, k: nat)
    requires StreamInv(s) && s.reader.Returned? && k < |s.pages|
    ensures Gone(s.pages[k].phase)
  {
    hide LogLinked, WireLinked, Counted, Halts, Settles;
    assert s.workers[0].Exited?;
  }

  lemma {:induction false} OkFinishesEveryPage(s: Stream, k: nat)
    requires StreamInv(s) && s.reader == Returned(StatusOk) && k < |s.pages|
    ensures s.pages[k].phase.Finished? && !s.halt
  {
    hide LogLinked, WireLinked, Counted, WorkersLinked, ReaderLinked, JobsLinked, Closing;
    ReturnedLeavesNoPage(s, k);
    assert !Abandoned(s.pages[k].phase);
  }

  lemma {:induction false} FinishedTally(pages: seq<Page>)
    requires forall k :: 0 <= k < |pages| ==> pages[k].phase.Finished?
    ensures Tally(pages, TStarted) == |pages| && Tally(pages, TOk) + Tally(pages, TFailed) == |pages|
    ensures Tally(pages, TOk) == |FinishedAs(pages, false)| && Tally(pages, TFailed) == |FinishedAs(pages, true)|
  {
    if pages != [] {
      hide FinishedAs, Counts;
      var last := |pages| - 1;
      FinishedCounts(pages[last].phase.failed);
      FinishedTally(pages[..last]);
      FinishedGrows(pages);
    }
  }

  lemma {:induction false} FinishedCounts(failed: bool)
    ensures Counts(TStarted, Finished(failed))
    ensures Counts(TOk, Finished(failed)) == !failed && Counts(TFailed, Finished(failed)) == failed
  {
  }

  lemma {:induction false} FinishedGrows(pages: seq<Page>)
    requires pages != [] && pages[|pages| - 1].phase.Finished?
    ensures forall failed :: |FinishedAs(pages, failed)| == |FinishedAs(pages[..|pages| - 1], failed)|
                               + if pages[|pages| - 1].phase == Finished(failed) then 1 else 0
  {
    var last := |pages| - 1;
    var rest, failed := pages[..last], pages[last].phase.failed;
    assert FinishedAs(pages, failed) == FinishedAs(rest, failed) + {last};
    assert FinishedAs(pages, !failed) == FinishedAs(rest, !failed);
  }

  /** The pages that ended with an answer of this kind. */
  ghost function FinishedAs(pages: seq<Page>, failed: bool): set<nat> {
    set k: nat | k < |pages| && pages[k].phase == Finished(failed)
  }

  lemma {:induction false} LoggedOnce(s: Stream, k: nat)
    requires LogLinked(s.log, s.pages) && k < |s.pages| && s.pages[k].phase.Finished?
    ensures DeliveredOnce(s.log, k, s.pages[k].number, s.pages[k].phase.failed)
  {
    var number, failed := s.pages[k].number, s.pages[k].phase.failed;
    assert PublishedAs(s.pages[k].phase, failed);
    var i :| 0 <= i < |s.log| && s.log[i] == PageStarted(k, number);
    var j :| 0 <= j < |s.log| && s.log[j] == PageAnswer(k, number, failed);
    forall n | 0 <= n < |s.log| && s.log[n].page == k ensures n == i || n == j {
    }
    assert i < j;
  }

  lemma {:induction false} OkStreamDelivers(s: Stream)
    requires StreamInv(s) && s.reader == Returned(StatusOk)
    ensures !s.halt && s.wire == s.log
    ensures forall k :: 0 <= k < |s.pages| ==>
              s.pages[k].phase.Finished? && DeliveredOnce(s.wire, k, s.pages[k].number, s.pages[k].phase.failed)
    ensures forall n :: 0 <= n < |s.wire| ==> s.wire[n].page < |s.pages|
    ensures var ok, failed := |FinishedAs(s.pages, false)|, |FinishedAs(s.pages, true)|;
            s.trailer == Some(Trailer(|s.pages|, ok, failed)) && ok + failed == |s.pages|
  {
    hide DeliveredOnce, WorkersLinked, ReaderLinked, JobsLinked, Tally;
    forall k | 0 <= k < |s.pages|
      ensures s.pages[k].phase.Finished? && DeliveredOnce(s.log, k, s.pages[k].number, s.pages[k].phase.failed)
    {
      OkFinishesEveryPage(s, k);
      LoggedOnce(s, k);
    }
    FinishedTally(s.pages);
  }

  // ---- the halt flag is sticky -------------------------------------------

  lemma {:induction false} ReaderKeepsHalt(s: Stream, a: ReaderAct)
    requires CanReader(s, a)
    ensures s.halt ==> DoReader(s, a).halt
  {
  }

  lemma {:induction false} WorkerKeepsHalt(s: Stream, w: nat, a: WorkerAct)
    requires CanWorker(s, w, a)
    ensures s.halt ==> DoWorker(s, w, a).halt
  {
  }

  lemma {:induction false} WriterKeepsHalt(s: Stream, a: WriterAct)
    requires CanWriter(s, a)
    ensures s.halt ==> DoWriter(s, a).halt
  {
  }

  lemma {:induction false} LocalKeepsHalt(s: Stream, a: Local)
    requires CanLocal(s, a)
    ensures s.halt ==> DoLocal(s, a).halt
  {
    hide DoReader, DoWorker, DoWriter, CanReader, CanWorker, CanWriter;
    match a
    case ByReader(r) => ReaderKeepsHalt(s, r);
    case ByWorker(w, x) => WorkerKeepsHalt(s, w, x);
    case ByWriter(x) => WriterKeepsHalt(s, x);
  }

  lemma {:induction false} StepKeepsHalt(g: System, a: Step, i: nat)
    requires Can(g, a) && i < |g.streams|
    ensures i < |Next(g, a).streams| && (g.streams[i].halt ==> Next(g, a).streams[i].halt)
  {
    hide DoLocal, CanLocal;
    if a.OnStream? {
      LocalKeepsHalt(g.streams[a.stream], a.local);
    }
  }

  lemma {:induction false} HaltSticks(states: seq<System>, steps: seq<Step>, m: nat, n: nat, i: nat)
    requires IsRun(states, steps) && m <= n < |states| && i < |states[m].streams|
    ensures i < |states[n].streams| && (states[m].streams[i].halt ==> states[n].streams[i].halt)
    decreases n
  {
    if m < n {
      HaltSticks(states, steps, m, n - 1, i);
      assert Can(states[n - 1], steps[n - 1]) && states[n - 1 + 1] == Next(states[n - 1], steps[n - 1]);
      StepKeepsHalt(states[n - 1], steps[n - 1], i);
    }
  }

  /** In every interleaving: a stream that returns OK was never halted at any
      earlier moment, handed every admitted page's start and then its one answer
      to the client, and announced a trailer that counts the pages by their answers. */
  lemma {:induction false} OkMeansDelivered(states: seq<System>, steps: seq<Step>, n: nat, i: nat)
    requires IsRun(states, steps) && n < |states| && i < |states[n].streams|
    requires states[n].streams[i].reader == Returned(StatusOk)
    ensures var s := states[n].streams[i];
            var ok, failed := |FinishedAs(s.pages, false)|, |FinishedAs(s.pages, true)|;
            && (forall k :: 0 <= k < |s.pages| ==>
                  s.pages[k].phase.Finished? && DeliveredOnce(s.wire, k, s.pages[k].number, s.pages[k].phase.failed))
            && (forall e :: e in s.wire ==> e.page < |s.pages|)
            && s.trailer == Some(Trailer(|s.pages|, ok, failed)) && ok + failed == |s.pages|
    ensures forall m :: 0 <= m <= n && i < |states[m].streams| ==> !states[m].streams[i].halt
  {
    hide StreamInv, IsRun, DeliveredOnce;
    EveryRunKeeps(states, steps, n);
    OkStreamDelivers(states[n].streams[i]);
    forall m | 0 <= m <= n && i < |states[m].streams| ensures !states[m].streams[i].halt {
      HaltSticks(states, steps, m, n, i);
    }
  }

  /** Every call that does not end CANCELLED bumps exactly one service counter,
      and which one follows from its status. */
  lemma {:induction false} OneCounterPerCall(states: seq<System>, steps: seq<Step>, n: nat, i: nat)
    requires IsRun(states, steps) && n < |states| && i < |states[n].streams|
    requires states[n].streams[i].reader.Returned?
    ensures var s := states[n].streams[i];
            && s.converted == (if s.reader.status.StatusOk? then 1 else 0)
            && s.rejected == (if s.reader.status.StatusError? then 1 else 0)
            && s.failed == (if s.reader.status.StatusAborted? then 1 else 0)
  {
    hide IsRun, WorkersLinked, ReaderLinked, JobsLinked, LogLinked, WireLinked, Counted, Halts, Closing;
    EveryRunKeeps(states, steps, n);
    assert StreamInv(states[n].streams[i]);
  }

  // ---- budgets -----------------------------------------------------------

  /** In every reachable state each budget's counter is the sum of its live
      leases and within capacity, a lease is live exactly while its page is in a
      phase that holds it, for that page's clamped amount, and nobody was granted
      before an earlier arrival that did not leave the line. */
  lemma {:induction false} BudgetsMatchPages(states: seq<System>, steps: seq<Step>, n: nat, id: BudgetId)
    requires IsRun(states, steps) && n < |states| && id in states[n].budgets
    ensures var g, b := states[n], states[n].budgets[id];
            && b.used == Sum(b.held) <= b.capacity
            && (forall p :: p in b.held <==> Exists(g, p) && Holds(id, p, PhaseOf(g, p)))
            && (forall p :: p in b.held ==> HeldAmount(g, id, p))
            && (forall early: nat, late: nat :: early < late && late in b.granted ==>
                  early in b.granted || early in b.left)
  {
    hide IsRun, StreamInv, InOrder, Accounted, Clamp, Asks, Holds, HeldFits, Least;
    EveryRunKeeps(states, steps, n);
    var g := states[n];
    assert Tracks(g, id, g.budgets[id]);
    forall p | p in g.budgets[id].held ensures HeldAmount(g, id, p) {
      assert HeldFits(g, id, g.budgets[id], p);
      HeldIsAsked(g, id, p);
    }
    InOrderOfArrival(g.budgets[id]);
  }

  /** A lease is for one slot or for the page's bytes, at least one, at most all. */
  ghost predicate HeldAmount(g: System, id: BudgetId, p: PageId)
    requires id in g.budgets
  {
    && Exists(g, p) && Holds(id, p, PhaseOf(g, p)) && p in g.budgets[id].held
    && var wants := if id.CallSlots? then 1 else g.streams[p.stream].pages[p.page].bytes;
       g.budgets[id].held[p] == if wants == 0 then 1 else Least(wants, g.budgets[id].capacity)
  }

  lemma {:induction false} HeldIsAsked(g: System, id: BudgetId, p: PageId)
    requires id in g.budgets && HeldFits(g, id, g.budgets[id], p) && g.budgets[id].capacity >= 1
    ensures HeldAmount(g, id, p)
  {
    hide Holds;
  }

  lemma {:induction false} InOrderOfArrival<K>(b: Ledger<K>)
    requires Ledgers.Valid(b)
    ensures forall early: nat, late: nat :: early < late && late in b.granted ==> early in b.granted || early in b.left
  {
    hide Ledgers.Valid;
    forall early: nat, late: nat | early < late && late in b.granted ensures early in b.granted || early in b.left {
      NoOvertaking(b, early, late);
    }
  }

  /** Whichever way a call ends, no budget still holds or queues any of its
      pages, and its own budget is empty. */
  lemma {:induction false} ReturnedGivesEverythingBack(states: seq<System>, steps: seq<Step>, n: nat, i: nat)
    requires IsRun(states, steps) && n < |states| && i < |states[n].streams|
    requires states[n].streams[i].reader.Returned?
    ensures forall id, p: PageId :: id in states[n].budgets && p.stream == i ==>
              p !in states[n].budgets[id].held && !InLine(states[n].budgets[id], p)
    ensures StreamBytes(i) in states[n].budgets && states[n].budgets[StreamBytes(i)].used == 0
  {
    hide IsRun, Ledgers.Valid, StreamInv;
    EveryRunKeeps(states, steps, n);
    var g := states[n];
    forall id, p: PageId | id in g.budgets && p.stream == i
      ensures p !in g.budgets[id].held && !InLine(g.budgets[id], p)
    {
      NoPageNoLease(g, id, p);
    }
    var mine := StreamBytes(i);
    assert Tracks(g, mine, g.budgets[mine]);
    forall p ensures p !in g.budgets[mine].held {
      assert p in g.budgets[mine].held ==> HeldFits(g, mine, g.budgets[mine], p);
    }
    assert g.budgets[mine].held == map[];
    NothingHeld(g.budgets[mine]);
  }

  lemma {:induction false} NoPageNoLease(g: System, id: BudgetId, p: PageId)
    requires SysInv(g) && id in g.budgets && p.stream < |g.streams| && g.streams[p.stream].reader.Returned?
    ensures p !in g.budgets[id].held && !InLine(g.budgets[id], p)
  {
    hide Ledgers.Valid, StreamInv, Gone, Holds, Waits, Asks, Clamp;
    var b := g.budgets[id];
    assert Tracks(g, id, b);
    if Exists(g, p) {
      ReturnedLeavesNoPage(g.streams[p.stream], p.page);
      GoneHoldsNothing(id, p, PhaseOf(g, p));
    }
    assert p in b.held ==> HeldFits(g, id, b, p);
    forall j | 0 <= j < |b.line| ensures b.line[j].owner != p {
      assert LineFits(g, id, b, b.line[j]);
    }
  }

  // ---- calls in flight -----------------------------------------------------

  lemma {:induction false} OnesAddUp<K>(held: map<K, nat>)
    requires forall k :: k in held ==> held[k] == 1
    ensures Sum(held) == |held|
    decreases |held|
  {
    if held != map[] {
      var k :| k in held;
      SumWithout(held, k);
      OnesAddUp(held - {k});
      assert |held| == |held - {k}| + 1 by {
        assert held.Keys == (held - {k}).Keys + {k};
      }
    }
  }

  lemma {:induction false} SmallerSet<T>(a: set<T>, b: set<T>)
    requires a <= b
    ensures |a| <= |b|
  {
    if a != {} {
      var x :| x in a;
      SmallerSet(a - {x}, b - {x});
    }
  }

  predicate InFlight(f: Phase) {
    f.Calling? || f.Answered? || f.Published?
  }

  /** Over every run, and over all calls together: never more pages with an open
      request, or an answer not yet passed on, than there are slots. */
  lemma {:induction false} CallsStayWithinSlots(states: seq<System>, steps: seq<Step>, n: nat, open: set<PageId>)
    requires IsRun(states, steps) && n < |states|
    requires forall p :: p in open ==> Exists(states[n], p) && InFlight(PhaseOf(states[n], p))
    ensures CallSlots in states[n].budgets && |open| <= states[n].budgets[CallSlots].capacity
  {
    hide IsRun, StreamInv, Clamp, Asks, InFlight, Tracks;
    EveryRunKeeps(states, steps, n);
    assert CallSlots in states[n].budgets;
    BudgetsMatchPages(states, steps, n, CallSlots);
    var b := states[n].budgets[CallSlots];
    forall p | p in open ensures Holds(CallSlots, p, PhaseOf(states[n], p)) {
      FlightHoldsSlot(p, PhaseOf(states[n], p));
    }
    hide Holds;
    CapacityPositive(states[n], CallSlots);
    OnesAddUp(b.held);
    SmallerSet(open, b.held.Keys);
  }

  lemma {:induction false} FlightHoldsSlot(p: PageId, f: Phase)
    requires InFlight(f)
    ensures Holds(CallSlots, p, f)
  {
  }

  lemma {:induction false} CapacityPositive(g: System, id: BudgetId)
    requires SysInv(g) && id in g.budgets
    ensures g.budgets[id].capacity >= 1
  {
    hide StreamInv;
    assert Tracks(g, id, g.budgets[id]);
  }
}
