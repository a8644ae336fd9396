/** Calls wind down: every thread of the pipeline, with a page or without one, until
    the call returns.

    An onward step is any step but reading from the client, opening a call and an
    idle poll of the writer. That a VLM call answers and that a write returns are the
    two things assumed of the outside. */
module PipelineClosing {
  import opened Common
  import opened Pipeline
  import opened Ledgers
  import opened StreamInvariant
  import opened SystemInvariant
  import opened PipelineProgress

  predicate Onward(l: Local) {
    match l
    case ByReader(r) => !r.CheckLoop? && !r.Read?
    case ByWorker(_, _) => true
    case ByWriter(x) => !x.Timeout?
  }

  ghost predicate IsOnward(g: System, a: Step) {
    Can(g, a) && (a.OnLease? || (a.OnStream? && Onward(a.local)))
  }

  // ---- onward steps use something up -------------------------------------

  function ReaderLeft(r: Reader): nat {
    match r
    case AtLoop => 8 case InRead => 8 case WithPage => 8
    case LeftLoop => 7 case Settled => 6 case JoiningWorkers => 5 case WorkersGone => 4
    case JoiningWriter => 3 case WriterGone => 2 case Returned(_) => 0
  }

  function WriterLeft(w: Writer): nat {
    match w
    case Writing(_) => 3 case Polling => 2 case Popping => 1 case ClientGone => 1 case Stopped => 0
  }

  function Present(workers: seq<Worker>): nat {
    if workers == [] then 0 else Present(workers[..|workers| - 1]) + if workers[|workers| - 1].Exited? then 0 else 1
  }

  /** What a stream still has to do before its call can return. */
  function Remaining(s: Stream): nat {
    16 * PagesWork(s.pages) + 3 * |s.events| + WriterLeft(s.writer) + Present(s.workers) + ReaderLeft(s.reader)
  }

  function Total(streams: seq<Stream>): nat {
    if streams == [] then 0 else Total(streams[..|streams| - 1]) + Remaining(streams[|streams| - 1])
  }

  lemma {:induction false} PresentUpdate(workers: seq<Worker>, w: nat, x: Worker)
    requires w < |workers|
    ensures Present(workers[w := x]) + (if workers[w].Exited? then 0 else 1) ==
            Present(workers) + if x.Exited? then 0 else 1
    decreases |workers|
  {
    var n, after := |workers| - 1, workers[w := x];
    if w == n {
      assert after[..n] == workers[..n];
    } else {
      PresentUpdate(workers[..n], w, x);
      assert after[..n] == workers[..n][w := x];
    }
  }

  lemma {:induction false} TotalUpdate(streams: seq<Stream>, i: nat, s: Stream)
    requires i < |streams|
    ensures Total(streams[i := s]) + Remaining(streams[i]) == Total(streams) + Remaining(s)
    decreases |streams|
  {
    hide Remaining;
    var n, after := |streams| - 1, streams[i := s];
    if i == n {
      assert after[..n] == streams[..n];
    } else {
      TotalUpdate(streams[..n], i, s);
      assert after[..n] == streams[..n][i := s];
    }
  }

  /** What may come with a page step: an event, a free worker, a reader leaving. */
  ghost predicate Beside(s: Stream, t: Stream) {
    && |t.events| <= |s.events| + 1 && t.writer == s.writer
    && Present(t.workers) <= Present(s.workers) + 1 && ReaderLeft(t.reader) <= ReaderLeft(s.reader) + 7
  }

  lemma {:induction false} LighterUses(s: Stream, t: Stream)
    requires Beside(s, t) && PagesWork(t.pages) < PagesWork(s.pages)
    ensures Remaining(t) < Remaining(s)
  {
  }

  lemma {:induction false} ReaderBeside(s: Stream, r: ReaderAct)
    requires CanReader(s, r) && (r.Announce? || r.Enqueue?)
    ensures Beside(s, DoReader(s, r))
  {
  }

  lemma {:induction false} PopBeside(s: Stream, w: nat)
    requires CanWorker(s, w, Pop)
    ensures Beside(s, DoWorker(s, w, Pop)) && DoWorker(s, w, Pop).reader == s.reader
  {
    PresentUpdate(s.workers, w, Busy(s.jobs[0]));
  }

  lemma {:induction false} CheckBeside(s: Stream, w: nat)
    requires CanWorker(s, w, CheckHalt)
    ensures Beside(s, DoWorker(s, w, CheckHalt)) && DoWorker(s, w, CheckHalt).reader == s.reader
  {
  }

  lemma {:induction false} AnswerBeside(s: Stream, w: nat, x: Answer)
    requires CanWorker(s, w, WorkerAct.Answer(x))
    ensures Beside(s, DoWorker(s, w, WorkerAct.Answer(x))) && DoWorker(s, w, WorkerAct.Answer(x)).reader == s.reader
  {
  }

  lemma {:induction false} PublishBeside(s: Stream, w: nat, x: WorkerAct)
    requires CanWorker(s, w, x) && (x.Publish? || x.Abort?)
    ensures Beside(s, DoWorker(s, w, x)) && DoWorker(s, w, x).reader == s.reader
  {
  }

  lemma {:induction false} WorkerBeside(s: Stream, w: nat, x: WorkerAct)
    requires CanWorker(s, w, x) && !x.Exit?
    ensures Beside(s, DoWorker(s, w, x)) && DoWorker(s, w, x).reader == s.reader
  {
    hide CanWorker, DoWorker, Beside;
    if x.Pop? {
      PopBeside(s, w);
    } else if x.CheckHalt? {
      CheckBeside(s, w);
    } else if x.Answer? {
      AnswerBeside(s, w, x.answer);
    } else {
      PublishBeside(s, w, x);
    }
  }

  lemma {:induction false} CarriedUses(s: Stream, l: Local)
    requires StreamInv(s) && CanLocal(s, l) && Target(s, l).Some?
    ensures Remaining(DoLocal(s, l)) < Remaining(s)
  {
    hide StreamInv, PagesWork, Weight, Beside, Remaining, CanReader, CanWorker, CanWriter, DoReader, DoWorker, DoWriter;
    var t, k := DoLocal(s, l), Target(s, l).value;
    LocalCarries(s, l);
    AdvanceLightens(s.pages[k].phase, t.pages[k].phase);
    PagesWorkUpdate(s.pages, k, t.pages[k].phase);
    if l.ByReader? {
      ReaderBeside(s, l.reader);
    } else {
      WorkerBeside(s, l.worker, l.act);
    }
    LighterUses(s, t);
  }

  lemma {:induction false} ReaderUses(s: Stream, r: ReaderAct)
    requires CanReader(s, r) && !r.CheckLoop? && !r.Read? && !r.Announce? && !r.Enqueue?
    ensures Remaining(DoReader(s, r)) < Remaining(s)
  {
    hide PagesWork, Present, DoRead, DoReturn, SetPhase, Push;
    if r.Return? {
      ReturnReturns(s, r.cancelled);
    }
  }

  lemma {:induction false} WriterUses(s: Stream, x: WriterAct)
    requires CanWriter(s, x) && !x.Timeout?
    ensures Remaining(DoWriter(s, x)) < Remaining(s)
  {
    hide PagesWork, Present;
  }

  lemma {:induction false} ExitUses(s: Stream, w: nat)
    requires CanWorker(s, w, Exit)
    ensures Remaining(DoWorker(s, w, Exit)) < Remaining(s) && DoWorker(s, w, Exit).reader == s.reader
  {
    hide PagesWork;
    PresentUpdate(s.workers, w, Exited);
  }

  lemma {:induction false} LocalUses(s: Stream, l: Local)
    requires StreamInv(s) && CanLocal(s, l) && Onward(l)
    ensures Remaining(DoLocal(s, l)) < Remaining(s)
  {
    hide StreamInv, Remaining, CanReader, CanWorker, CanWriter, DoReader, DoWorker, DoWriter;
    if Target(s, l).Some? {
      CarriedUses(s, l);
    } else {
      match l
      case ByReader(r) => ReaderUses(s, r);
      case ByWorker(w, _) => ExitUses(s, w);
      case ByWriter(x) => WriterUses(s, x);
    }
  }

  lemma {:induction false} MoveBeside(s: Stream, k: nat, id: BudgetId, m: Move)
    requires k < |s.pages| && After(id, m, s.pages[k].phase).Some?
    requires s.pages[k].phase.FreeingStream? ==> s.pages[k].phase.worker < |s.workers|
    ensures var t := StreamAfterMove(s, k, id, m);
            Beside(s, t) && t.pages == Repaint(s.pages, k, After(id, m, s.pages[k].phase).value)
  {
    hide After;
    if s.pages[k].phase.FreeingStream? {
      PresentUpdate(s.workers, s.pages[k].phase.worker, Idle);
    }
  }

  lemma {:induction false} MoveUses(g: System, id: BudgetId, p: PageId, m: Move, at: nat)
    requires CanMove(g, id, p, m, at)
    ensures var s := g.streams[p.stream]; Remaining(StreamAfterMove(s, p.page, id, m)) < Remaining(s)
  {
    MoveExists(g, id, p, m, at);
    hide PagesWork, Weight, After, Remaining, Beside, StreamAfterMove, CanMove;
    var s := g.streams[p.stream];
    MoveBeside(s, p.page, id, m);
    MoveLightens(id, m, s.pages[p.page].phase);
    PagesWorkUpdate(s.pages, p.page, After(id, m, s.pages[p.page].phase).value);
    LighterUses(s, StreamAfterMove(s, p.page, id, m));
  }

  /** Every onward step uses up a part of what remains to be done. */
  lemma {:induction false} OnwardUses(g: System, a: Step)
    requires SysInv(g) && IsOnward(g, a)
    ensures Total(Next(g, a).streams) < Total(g.streams)
  {
    hide StreamInv, Tracks, DoLocal, CanLocal, CanMove, StreamAfterMove, Remaining, Total;
    match a
    case OnStream(i, l) =>
      LocalUses(g.streams[i], l);
      TotalUpdate(g.streams, i, DoLocal(g.streams[i], l));
    case OnLease(id, p, m, at) =>
      MoveExists(g, id, p, m, at);
      MoveUses(g, id, p, m, at);
      TotalUpdate(g.streams, p.stream, StreamAfterMove(g.streams[p.stream], p.page, id, m));
  }

  lemma {:induction false} MoveExists(g: System, id: BudgetId, p: PageId, m: Move, at: nat)
    requires CanMove(g, id, p, m, at)
    ensures Exists(g, p) && After(id, m, PhaseOf(g, p)).Some?
    ensures PhaseOf(g, p).FreeingStream? ==> PhaseOf(g, p).worker < |g.streams[p.stream].workers|
  {
  }

  // ---- a call that left its loop can always go on ------------------------

  /** With all its pages gone, a call whose reader left its loop and that has not
      returned has an onward step of its own. */
  lemma {:induction false} LateCallGoesOn(s: Stream) returns (l: Local)
    requires StreamInv(s) && Past(s.reader) && !s.reader.Returned? &&
             forall k :: 0 <= k < |s.pages| ==> Gone(s.pages[k].phase)
    ensures CanLocal(s, l) && Onward(l)
  {
    hide LogLinked, WireLinked, Counted, Halts, Settles, ReaderLinked;
    match s.reader
    case LeftLoop => l := ByReader(Settle);
    case Settled => l := ByReader(CloseJobs);
    case WorkersGone => l := ByReader(CloseEvents);
    case WriterGone => l := ByReader(Return(false));
    case JoiningWorkers =>
      FrontJobIsThere(s.jobs, s.pages);
      if w :| 0 <= w < |s.workers| && !s.workers[w].Exited? {
        assert s.workers[w].Busy? ==> BusyWith(s.workers, s.pages, w, s.workers[w].page);
        l := ByWorker(w, Exit);
      } else {
        l := ByReader(JoinWorkers);
      }
    case JoiningWriter =>
      l := if s.writer.Stopped? then ByReader(JoinWriter)
           else ByWriter(if s.writer.Polling? then PollClient(false) else if s.writer.Popping? then PopEvent
                         else if s.writer.Writing? then Write(true) else MarkHalt);
  }

  lemma {:induction false} FrontJobIsThere(jobs: seq<nat>, pages: seq<Page>)
    requires JobsLinked(jobs, pages)
    ensures |jobs| > 0 ==> jobs[0] < |pages| && !Gone(pages[jobs[0]].phase)
  {
  }

  lemma {:induction false} CoreIsOnward(g: System, a: Step)
    requires IsCore(g, a)
    ensures IsOnward(g, a)
  {
    hide CanLocal, CanMove;
  }

  /** Where no onward step is left, every call has returned or is still reading, and no
      page is left anywhere. */
  lemma {:induction false} StuckMeansReturned(g: System)
    requires SysInv(g) && forall a :: !IsOnward(g, a)
    ensures forall p :: Exists(g, p) ==> Gone(PhaseOf(g, p))
    ensures forall i :: 0 <= i < |g.streams| ==> var r := g.streams[i].reader; r.AtLoop? || r.InRead? || r.Returned?
    ensures forall id :: id in g.budgets ==> g.budgets[id].used == 0 && g.budgets[id].line == []
  {
    forall a ensures !IsCore(g, a) {
      if IsCore(g, a) {
        CoreIsOnward(g, a);
      }
    }
    NobodyWaits(g);
    hide IsOnward, IsCore, SysInv;
    forall i | 0 <= i < |g.streams| ensures var r := g.streams[i].reader; r.AtLoop? || r.InRead? || r.Returned? {
      LateStreamMoves(g, i);
    }
  }

  lemma {:induction false} LateStreamMoves(g: System, i: nat)
    requires SysInv(g) && i < |g.streams| && forall p :: Exists(g, p) ==> Gone(PhaseOf(g, p))
    ensures var r := g.streams[i].reader; r.AtLoop? || r.InRead? || r.Returned? || exists a :: IsOnward(g, a)
  {
    hide Tracks, WorkersLinked, JobsLinked, LogLinked, WireLinked, Counted, Halts, Closing, Settles, CanLocal;
    var s := g.streams[i];
    assert StreamInv(s);
    forall k | 0 <= k < |s.pages| ensures Gone(s.pages[k].phase) {
      assert Exists(g, PageId(i, k)) && Gone(PhaseOf(g, PageId(i, k)));
    }
    assert !s.reader.WithPage?;
    if Past(s.reader) && !s.reader.Returned? {
      var l := LateCallGoesOn(s);
      assert IsOnward(g, OnStream(i, l));
    }
  }

  // ---- winding down ------------------------------------------------------

  ghost predicate IsOnwardRun(states: seq<System>, steps: seq<Step>) {
    && |states| == |steps| + 1
    && forall n :: 0 <= n < |steps| ==> IsOnward(states[n], steps[n]) && states[n + 1] == Next(states[n], steps[n])
  }

  /** Onward steps alone cannot go on for ever. */
  lemma {:induction false} OnwardRunsAreBounded(states: seq<System>, steps: seq<Step>)
    requires IsOnwardRun(states, steps) && SysInv(states[0])
    ensures |steps| + Total(states[|steps|].streams) <= Total(states[0].streams) && SysInv(states[|steps|])
    decreases |steps|
  {
    hide SysInv, IsOnward, Total, Can, Next;
    if |steps| > 0 {
      OnwardSplits(states, steps);
      hide IsOnwardRun;
      var n := |steps| - 1;
      OnwardRunsAreBounded(states[..n + 1], steps[..n]);
      OnwardUses(states[n], steps[n]);
      StepKeeps(states[n], steps[n]);
    }
  }

  /** A run is a shorter run and its last step. */
  lemma {:induction false} OnwardSplits(states: seq<System>, steps: seq<Step>)
    requires IsOnwardRun(states, steps) && |steps| > 0
    ensures var n := |steps| - 1;
            && IsOnwardRun(states[..n + 1], steps[..n]) && states[..n + 1][n] == states[n]
            && IsOnward(states[n], steps[n]) && Can(states[n], steps[n]) && states[n + 1] == Next(states[n], steps[n])
  {
    hide Can, Next;
    var n := |steps| - 1;
    assert IsOnward(states[n], steps[n]) && states[n + 1] == Next(states[n], steps[n]);
  }

  lemma {:induction false} OnwardCan(g: System, a: Step)
    requires IsOnward(g, a)
    ensures Can(g, a)
  {
  }

  lemma {:induction false} ReaderActStaysPast(s: Stream, r: ReaderAct)
    requires CanReader(s, r) && Past(s.reader)
    ensures Past(DoReader(s, r).reader)
  {
    hide DoRead, DoReturn, SetPhase, Push;
    assert !r.CheckLoop? && !r.Read? && !r.Announce? && !r.Enqueue?;
    if r.Return? {
      ReturnReturns(s, r.cancelled);
    }
  }

  lemma {:induction false} ReturnReturns(s: Stream, cancelled: bool)
    ensures var t := DoReturn(s, cancelled);
            t.reader.Returned? && t.pages == s.pages && t.events == s.events && t.writer == s.writer &&
              t.workers == s.workers
  {
  }

  lemma {:induction false} WriterLeavesReader(s: Stream, x: WriterAct)
    requires CanWriter(s, x)
    ensures DoWriter(s, x).reader == s.reader
  {
  }

  lemma {:induction false} ReaderStaysPast(s: Stream, l: Local)
    requires CanLocal(s, l) && Past(s.reader)
    ensures Past(DoLocal(s, l).reader)
  {
    hide DoReader, DoWorker, DoWriter, CanReader, CanWorker, CanWriter, Beside, Remaining;
    match l
    case ByReader(r) => ReaderActStaysPast(s, r);
    case ByWriter(x) => WriterLeavesReader(s, x);
    case ByWorker(w, x) =>
      if x.Exit? {
        ExitUses(s, w);
      } else {
        WorkerBeside(s, w, x);
      }
  }

  lemma {:induction false} StaysPast(g: System, a: Step, i: nat)
    requires IsOnward(g, a) && i < |g.streams| && Past(g.streams[i].reader)
    ensures i < |Next(g, a).streams| && Past(Next(g, a).streams[i].reader)
  {
    hide DoLocal, CanLocal;
    if a.OnStream? && a.stream == i {
      ReaderStaysPast(g.streams[a.stream], a.local);
    }
  }

  /** From every state of every run the onward steps lead, within a known number of
      them, to a state in which every call whose reader had left its loop has returned,
      every page is gone and every lease is back. */
  lemma {:induction false} CallsWindDown(g: System) returns (states: seq<System>, steps: seq<Step>)
    requires SysInv(g)
    ensures IsOnwardRun(states, steps) && states[0] == g && |steps| <= Total(g.streams)
    ensures var h := states[|steps|];
            && |h.streams| == |g.streams|
            && (forall i :: 0 <= i < |g.streams| && Past(g.streams[i].reader) ==> h.streams[i].reader.Returned?)
            && (forall p :: Exists(h, p) ==> Gone(PhaseOf(h, p)))
            && (forall id :: id in h.budgets ==> h.budgets[id].used == 0 && h.budgets[id].line == [])
    decreases Total(g.streams)
  {
    hide IsOnward, SysInv, Total;
    if a :| IsOnward(g, a) {
      OnwardCan(g, a);
      OnwardUses(g, a);
      StepKeeps(g, a);
      var h := Next(g, a);
      forall i | 0 <= i < |g.streams| && Past(g.streams[i].reader)
        ensures i < |h.streams| && Past(h.streams[i].reader)
      {
        StaysPast(g, a, i);
      }
      OnwardSameStreams(g, a);
      hide Next;
      var later, rest := CallsWindDown(h);
      states, steps := [g] + later, [a] + rest;
      PrependOnward(g, a, later, rest);
    } else {
      StuckMeansReturned(g);
      states, steps := [g], [];
    }
  }

  lemma {:induction false} OnwardSameStreams(g: System, a: Step)
    requires IsOnward(g, a)
    ensures |Next(g, a).streams| == |g.streams|
  {
    hide DoLocal, StreamAfterMove;
  }

  lemma {:induction false} PrependOnward(g: System, a: Step, states: seq<System>, steps: seq<Step>)
    requires IsOnward(g, a) && IsOnwardRun(states, steps) && Can(g, a) && states[0] == Next(g, a)
    ensures IsOnwardRun([g] + states, [a] + steps)
  {
    hide Can, Next;
    var longer, all := [g] + states, [a] + steps;
    forall n | 0 <= n < |all| ensures IsOnward(longer[n], all[n]) && longer[n + 1] == Next(longer[n], all[n]) {
      if n > 0 {
        assert IsOnward(states[n - 1], steps[n - 1]) && states[n - 1 + 1] == Next(states[n - 1], steps[n - 1]);
      }
    }
  }

  /** No interleaving of any number of streams can deadlock: in every state of every
      run, what is still going on comes to its end by onward steps alone, and each of
      them brings that end nearer. */
  lemma {:induction false} EveryRunCanWindDown(states: seq<System>, steps: seq<Step>, n: nat)
      returns (later: seq<System>, rest: seq<Step>)
    requires IsRun(states, steps) && n < |states|
    ensures IsOnwardRun(later, rest) && later[0] == states[n] && |rest| <= Total(states[n].streams)
    ensures var g, h := states[n], later[|rest|];
            && |h.streams| == |g.streams|
            && (forall i :: 0 <= i < |g.streams| && Past(g.streams[i].reader) ==> h.streams[i].reader.Returned?)
            && (forall p :: Exists(h, p) ==> Gone(PhaseOf(h, p)))
            && (forall id :: id in h.budgets ==> h.budgets[id].used == 0 && h.budgets[id].line == [])
  {
    hide IsRun, SysInv, IsOnwardRun, Total;
    EveryRunKeeps(states, steps, n);
    later, rest := CallsWindDown(states[n]);
  }
}
