/** What halting a call means, and the order in which pages are worked off. */
module PipelineHalting {
  import opened Common
  import opened Pipeline
  import opened Ledgers
  import opened StreamInvariant
  import opened SystemInvariant
  import opened PipelineTheorems
  import opened PipelineOutcomes

  // ---- one stream ----------------------------------------------------------

  /** A page whose failure has been acted on. */
  predicate FailedThrough(f: Phase) {
    match f
    case FreeingSlot(_, o) => o == Done(true)
    case FreeingProcess(_, o) => o == Done(true)
    case FreeingStream(_, o) => o == Done(true)
    case Finished(b) => b
    case _ => false
  }

  /** Every reason to halt is acted on at once by the thread that finds it. */
  ghost predicate Prompt(s: Stream) {
    && (s.clientGone ==> s.halt || s.writer.ClientGone?)
    && (s.error.Some? ==> s.halt || s.reader.LeftLoop?)
    && (s.config.abortOnError && !s.halt ==> NoneFailed(s.pages))
  }

  ghost predicate NoneFailed(pages: seq<Page>) {
    forall k :: 0 <= k < |pages| ==> !FailedThrough(pages[k].phase)
  }

  /** The queue holds the pages in the order they were admitted. */
  ghost predicate Ascending(jobs: seq<nat>) {
    forall i, j :: 0 <= i < j < |jobs| ==> jobs[i] < jobs[j]
  }

  /** Pages are announced in the order they were admitted. */
  ghost predicate StartsAscend(log: seq<Event>) {
    forall i, j :: 0 <= i < j < |log| && log[i].PageStarted? && log[j].PageStarted? ==> log[i].page < log[j].page
  }

  ghost predicate Orderly(s: Stream) {
    Prompt(s) && Ascending(s.jobs) && StartsAscend(s.log)
  }

  lemma {:induction false} QuietPages(pages: seq<Page>, k: nat, f: Phase)
    requires k < |pages| && NoneFailed(pages) && !FailedThrough(f)
    ensures NoneFailed(pages[k := pages[k].(phase := f)])
  {
    hide FailedThrough;
  }

  lemma {:induction false} MorePages(pages: seq<Page>, p: Page)
    requires NoneFailed(pages) && p.phase.Validated?
    ensures NoneFailed(pages + [p])
  {
  }

  lemma {:induction false} MoreJobs(s: Stream)
    requires JobsLinked(s.jobs, s.pages) && Ascending(s.jobs) && |s.pages| > 0
    requires !s.pages[|s.pages| - 1].phase.Queued?
    ensures Ascending(s.jobs + [|s.pages| - 1])
  {
  }

  lemma {:induction false} FewerJobs(jobs: seq<nat>)
    requires Ascending(jobs) && |jobs| > 0
    ensures Ascending(jobs[1..])
  {
  }

  lemma {:induction false} MoreStarts(s: Stream)
    requires LogLinked(s.log, s.pages) && StartsAscend(s.log) && |s.pages| > 0
    requires !IsAnnounced(s.pages[|s.pages| - 1].phase)
    ensures StartsAscend(s.log + [PageStarted(|s.pages| - 1, s.pages[|s.pages| - 1].number)])
  {
    hide IsAnnounced, PublishedAs;
    forall j | 0 <= j < |s.log| && s.log[j].PageStarted? ensures s.log[j].page < |s.pages| - 1 {
      assert EventFits(s.pages, s.log[j]);
    }
  }

  lemma {:induction false} MoreAnswers(log: seq<Event>, e: Event)
    requires StartsAscend(log) && e.PageAnswer?
    ensures StartsAscend(log + [e])
  {
  }

  lemma {:induction false} ReadOrderly(s: Stream, m: Message)
    requires StreamInv(s) && Orderly(s) && CanReader(s, Read(m))
    ensures Orderly(DoReader(s, Read(m)))
  {
    hide WorkersLinked, ReaderLinked, JobsLinked, LogLinked, WireLinked, Counted, Halts, Excused, Closing;
    hide NoneFailed, Ascending, StartsAscend, Problem;
    if m.Image? && NoneFailed(s.pages) {
      MorePages(s.pages, Page(m.number, m.bytes, Validated));
    }
  }

  lemma {:induction false} ReturnOrderly(s: Stream, cancelled: bool)
    requires Orderly(s) && s.reader.WriterGone?
    ensures Orderly(DoReturn(s, cancelled))
  {
    hide NoneFailed, Ascending, StartsAscend;
  }

  lemma {:induction false} AnnounceOrderly(s: Stream)
    requires StreamInv(s) && Orderly(s) && CanReader(s, Announce)
    ensures Orderly(DoReader(s, Announce))
  {
    hide WorkersLinked, JobsLinked, LogLinked, WireLinked, Counted, Halts, Excused, Closing;
    hide NoneFailed, Ascending, StartsAscend;
    MoreStarts(s);
    if NoneFailed(s.pages) {
      QuietPages(s.pages, |s.pages| - 1, Announced);
    }
  }

  lemma {:induction false} EnqueueOrderly(s: Stream)
    requires StreamInv(s) && Orderly(s) && CanReader(s, Enqueue)
    ensures Orderly(DoReader(s, Enqueue))
  {
    hide WorkersLinked, JobsLinked, LogLinked, WireLinked, Counted, Halts, Excused, Closing;
    hide NoneFailed, Ascending, StartsAscend;
    MoreJobs(s);
    if NoneFailed(s.pages) {
      QuietPages(s.pages, |s.pages| - 1, Queued);
    }
  }

  lemma {:induction false} ReaderOrderly(s: Stream, a: ReaderAct)
    requires StreamInv(s) && Orderly(s) && CanReader(s, a)
    ensures Orderly(DoReader(s, a))
  {
    hide WorkersLinked, ReaderLinked, JobsLinked, LogLinked, WireLinked, Counted, Halts, Excused, Closing;
    hide NoneFailed, Ascending, StartsAscend, DoRead, DoReturn;
    match a
    case Read(m) => ReadOrderly(s, m);
    case Announce => AnnounceOrderly(s);
    case Enqueue => EnqueueOrderly(s);
    case Return(c) => ReturnOrderly(s, c);
    case _ =>
  }

  lemma {:induction false} PopOrderly(s: Stream, w: nat, a: WorkerAct)
    requires Orderly(s) && CanWorker(s, w, a) && (a.Pop? || a.Exit?)
    ensures Orderly(DoWorker(s, w, a))
  {
    hide NoneFailed, Ascending, StartsAscend;
    if a.Pop? {
      FewerJobs(s.jobs);
      if NoneFailed(s.pages) {
        QuietPages(s.pages, s.jobs[0], Popped(w));
      }
    }
  }

  /** One page changes its phase and nothing else of concern here. */
  lemma {:induction false} PhaseOrderly(s: Stream, t: Stream, k: nat, f: Phase)
    requires Orderly(s) && k < |s.pages| && t.pages == s.pages[k := s.pages[k].(phase := f)]
    requires FailedThrough(f) ==> FailedThrough(s.pages[k].phase)
    requires t.clientGone == s.clientGone && t.writer == s.writer && t.error == s.error && t.halt == s.halt
    requires t.config == s.config && t.jobs == s.jobs && (t.reader == s.reader || t.reader.LeftLoop?)
    requires StartsAscend(t.log)
    ensures Orderly(t)
  {
    hide NoneFailed, Ascending, StartsAscend, FailedThrough;
    if NoneFailed(s.pages) {
      NoneFailedAt(s.pages, k);
      QuietPages(s.pages, k, f);
    }
  }

  lemma {:induction false} CheckOrderly(s: Stream, w: nat)
    requires Orderly(s) && CanWorker(s, w, CheckHalt)
    ensures Orderly(DoWorker(s, w, CheckHalt))
  {
    hide Prompt, Ascending, StartsAscend;
    var f := if s.halt then FreeingProcess(w, Dropped) else Cleared(w);
    PhaseOrderly(s, DoWorker(s, w, CheckHalt), s.workers[w].page, f);
  }

  lemma {:induction false} AnswerOrderly(s: Stream, w: nat, answer: Answer)
    requires Orderly(s) && CanWorker(s, w, Answer(answer))
    ensures Orderly(DoWorker(s, w, Answer(answer)))
  {
    hide Prompt, Ascending, StartsAscend;
    var f := if answer.CutShort? then FreeingSlot(w, Dropped) else Answered(w, answer.Raw?);
    PhaseOrderly(s, DoWorker(s, w, Answer(answer)), s.workers[w].page, f);
  }

  lemma {:induction false} PublishOrderly(s: Stream, w: nat)
    requires Orderly(s) && CanWorker(s, w, Publish)
    ensures Orderly(DoWorker(s, w, Publish))
  {
    hide Prompt, Ascending, StartsAscend;
    var k := s.workers[w].page;
    var failed := s.pages[k].phase.failed;
    MoreAnswers(s.log, PageAnswer(k, s.pages[k].number, failed));
    PhaseOrderly(s, DoWorker(s, w, Publish), k, Published(w, failed));
  }

  lemma {:induction false} AbortOrderly(s: Stream, w: nat)
    requires Orderly(s) && CanWorker(s, w, Abort)
    ensures Orderly(DoWorker(s, w, Abort))
  {
    hide NoneFailed, Ascending, StartsAscend;
    var k := s.workers[w].page;
    if NoneFailed(s.pages) && !s.pages[k].phase.failed {
      QuietPages(s.pages, k, FreeingSlot(w, Done(false)));
    }
  }

  lemma {:induction false} WorkerOrderly(s: Stream, w: nat, a: WorkerAct)
    requires Orderly(s) && CanWorker(s, w, a)
    ensures Orderly(DoWorker(s, w, a))
  {
    hide Orderly, DoWorker, CanWorker;
    match a
    case Pop => PopOrderly(s, w, a);
    case Exit => PopOrderly(s, w, a);
    case CheckHalt => CheckOrderly(s, w);
    case Answer(answer) => AnswerOrderly(s, w, answer);
    case Publish => PublishOrderly(s, w);
    case Abort => AbortOrderly(s, w);
  }

  lemma {:induction false} WriterOrderly(s: Stream, a: WriterAct)
    requires Orderly(s) && CanWriter(s, a)
    ensures Orderly(DoWriter(s, a))
  {
    hide NoneFailed, Ascending, StartsAscend;
  }

  lemma {:induction false} LocalOrderly(s: Stream, l: Local)
    requires StreamInv(s) && Orderly(s) && CanLocal(s, l)
    ensures Orderly(DoLocal(s, l))
  {
    hide StreamInv, Orderly, DoReader, DoWorker, DoWriter, CanReader, CanWorker, CanWriter;
    match l
    case ByReader(a) => ReaderOrderly(s, a);
    case ByWorker(w, a) => WorkerOrderly(s, w, a);
    case ByWriter(a) => WriterOrderly(s, a);
  }

  lemma {:induction false} MoveFails(id: BudgetId, m: Move, f: Phase)
    requires After(id, m, f).Some?
    ensures FailedThrough(After(id, m, f).value) ==> FailedThrough(f)
  {
  }

  lemma {:induction false} MoveOrderly(s: Stream, k: nat, id: BudgetId, m: Move)
    requires Orderly(s) && k < |s.pages| && After(id, m, s.pages[k].phase).Some?
    requires s.pages[k].phase.FreeingStream? ==> s.pages[k].phase.worker < |s.workers|
    ensures Orderly(StreamAfterMove(s, k, id, m))
  {
    hide Prompt, Ascending, StartsAscend, After, FailedThrough;
    MoveFails(id, m, s.pages[k].phase);
    PhaseOrderly(s, StreamAfterMove(s, k, id, m), k, After(id, m, s.pages[k].phase).value);
  }

  lemma {:induction false} NoneFailedAt(pages: seq<Page>, k: nat)
    requires NoneFailed(pages) && k < |pages|
    ensures !FailedThrough(pages[k].phase)
  {
  }

  lemma {:induction false} NewOrderly(config: Config, code: Code)
    ensures Orderly(NewStream(config)) && Orderly(RejectedCall(code))
  {
  }

  lemma {:induction false} StepOrderly(g: System, a: Step, i: nat)
    requires SysInv(g) && Can(g, a) && i < |g.streams| && Orderly(g.streams[i])
    ensures i < |Next(g, a).streams| && Orderly(Next(g, a).streams[i])
  {
    hide StreamInv, Orderly, DoLocal, CanLocal, StreamAfterMove, Tracks, BudgetAfter, After;
    if a.OnStream? && a.stream == i {
      LocalOrderly(g.streams[i], a.local);
    }
    if a.OnLease? && a.page.stream == i {
      MoveOrderly(g.streams[i], a.page.page, a.id, a.move);
    }
  }

  lemma {:induction false} EveryRunIsOrderly(states: seq<System>, steps: seq<Step>, n: nat, i: nat)
    requires IsRun(states, steps) && n < |states| && i < |states[n].streams|
    ensures Orderly(states[n].streams[i])
    decreases n
  {
    hide IsRun, SysInv, Can, Next, Orderly, NewStream, RejectedCall;
    RunLength(states, steps);
    var m := n - 1;
    RunStep(states, steps, m);
    BornHere(states[m], steps[m]);
    if i < |states[m].streams| {
      EveryRunKeeps(states, steps, m);
      EveryRunIsOrderly(states, steps, m, i);
      StepOrderly(states[m], steps[m], i);
    } else {
      NewOrderly(if steps[m].Open? then steps[m].config else Config(1, 1, 0, 0, false),
                 if steps[m].Reject? then steps[m].code else OtherCode);
    }
  }

  // ---- over runs -----------------------------------------------------------

  /** Over every run: pages are announced to the client, and taken off the queue, in
      the order their images were read. */
  lemma {:induction false} PagesGoInOrder(states: seq<System>, steps: seq<Step>, n: nat, i: nat)
    requires IsRun(states, steps) && n < |states| && i < |states[n].streams|
    ensures var s := states[n].streams[i];
            && (forall a, b :: 0 <= a < b < |s.wire| && s.wire[a].PageStarted? && s.wire[b].PageStarted? ==>
                  s.wire[a].page < s.wire[b].page)
            && (forall k :: k in s.jobs ==> s.jobs[0] <= k)
  {
    hide IsRun, StreamInv, Prompt;
    EveryRunIsOrderly(states, steps, n, i);
    EveryRunKeeps(states, steps, n);
    WireIsLog(states[n].streams[i]);
  }

  lemma {:induction false} WireIsLog(s: Stream)
    requires StreamInv(s)
    ensures s.wire <= s.log
  {
  }

  /** Over every run: a call that returned was halted exactly when it was refused, lost
      its client, or had a page fail under `abort_on_error`. */
  lemma {:induction false} HaltedExactly(states: seq<System>, steps: seq<Step>, n: nat, i: nat)
    requires IsRun(states, steps) && n < |states| && i < |states[n].streams|
    requires states[n].streams[i].reader.Returned?
    ensures var s := states[n].streams[i];
            s.halt <==> (exists code :: WasRefused(states, steps, n, i, code))
                        || Ever(states, steps, n, i, ClientLost)
                        || (s.config.abortOnError && PageFailed(states, steps, n, i))
  {
    hide IsRun, SysInv, StreamInv, Orderly, Ever, WasRefused, PageFailed;
    var s := states[n].streams[i];
    EveryRunKeeps(states, steps, n);
    CountsAgree(states[n], i);
    EveryRunIsOrderly(states, steps, n, i);
    RefusalShows(states, steps, n, i);
    FailureShows(states, steps, n, i);
    HistoryShows(states, steps, n, i, ClientLost);
    HaltedIffExcused(s);
    assert s.error.Some? ==> WasRefused(states, steps, n, i, s.error.value);
  }

  lemma {:induction false} HaltedIffExcused(s: Stream)
    requires StreamInv(s) && Orderly(s) && s.reader.Returned?
    ensures s.halt <==> s.clientGone || s.error.Some? || (s.config.abortOnError && s.pageFailed > 0)
  {
    hide WorkersLinked, ReaderLinked, JobsLinked, LogLinked, WireLinked, Settles, Tally, Ascending, StartsAscend;
    if s.config.abortOnError && s.pageFailed > 0 {
      TallyWitness(s.pages, TFailed);
      var k :| 0 <= k < |s.pages| && Counts(TFailed, s.pages[k].phase);
      ReturnedLeavesNoPage(s, k);
      assert FailedThrough(s.pages[k].phase);
    }
  }

  // ---- after the halt -------------------------------------------------------

  /** A page in the queue or dropped from it, never called for. */
  predicate Uncalled(f: Phase) {
    match f
    case Queued => true
    case Popped(_) => true
    case FreeingProcess(_, o) => o.Dropped?
    case FreeingStream(_, o) => o.Dropped?
    case Skipped => true
    case _ => false
  }

  /** Page images read so far, counting one the reader is about to read. */
  function ReadSoFar(s: Stream): nat {
    |s.pages| + if s.reader.InRead? then 1 else 0
  }

  /** What a step of a halted stream may not undo. */
  ghost predicate WindsDown(s: Stream, t: Stream) {
    && |s.pages| <= |t.pages| && ReadSoFar(t) <= ReadSoFar(s)
    && forall k :: 0 <= k < |s.pages| && Uncalled(s.pages[k].phase) ==> Uncalled(t.pages[k].phase)
  }

  lemma {:induction false} SamePagesWindDown(s: Stream, t: Stream)
    requires s.pages == t.pages && (t.reader.InRead? ==> s.reader.InRead?)
    ensures WindsDown(s, t)
  {
    hide Uncalled;
  }

  lemma {:induction false} PhaseWindsDown(s: Stream, t: Stream, k: nat, f: Phase)
    requires k < |s.pages| && t.pages == s.pages[k := s.pages[k].(phase := f)]
    requires t.reader.InRead? ==> s.reader.InRead?
    requires Uncalled(s.pages[k].phase) ==> Uncalled(f)
    ensures WindsDown(s, t)
  {
    hide Uncalled;
  }

  lemma {:induction false} ReadWindsDown(s: Stream, m: Message)
    requires CanReader(s, Read(m))
    ensures WindsDown(s, DoReader(s, Read(m)))
  {
    hide Uncalled, Problem;
  }

  lemma {:induction false} ReturnWindsDown(s: Stream, c: bool)
    ensures WindsDown(s, DoReturn(s, c))
  {
    hide WindsDown;
    SamePagesWindDown(s, DoReturn(s, c));
  }

  lemma {:induction false} ReaderWindsDown(s: Stream, a: ReaderAct)
    requires s.halt && CanReader(s, a)
    ensures WindsDown(s, DoReader(s, a))
  {
    hide WindsDown, DoRead, DoReturn;
    match a
    case Read(m) => ReadWindsDown(s, m);
    case Return(c) => ReturnWindsDown(s, c);
    case Announce => PhaseWindsDown(s, DoReader(s, a), |s.pages| - 1, Announced);
    case Enqueue => PhaseWindsDown(s, DoReader(s, a), |s.pages| - 1, Queued);
    case _ => SamePagesWindDown(s, DoReader(s, a));
  }

  lemma {:induction false} PopWindsDown(s: Stream, w: nat, a: WorkerAct)
    requires CanWorker(s, w, a) && (a.Pop? || a.Exit?)
    ensures WindsDown(s, DoWorker(s, w, a))
  {
    hide WindsDown;
    if a.Pop? {
      PhaseWindsDown(s, DoWorker(s, w, a), s.jobs[0], Popped(w));
    } else {
      SamePagesWindDown(s, DoWorker(s, w, a));
    }
  }

  lemma {:induction false} CheckWindsDown(s: Stream, w: nat)
    requires s.halt && CanWorker(s, w, CheckHalt)
    ensures WindsDown(s, DoWorker(s, w, CheckHalt))
  {
    hide WindsDown;
    PhaseWindsDown(s, DoWorker(s, w, CheckHalt), s.workers[w].page, FreeingProcess(w, Dropped));
  }

  lemma {:induction false} AnswerWindsDown(s: Stream, w: nat, answer: Answer)
    requires CanWorker(s, w, Answer(answer))
    ensures WindsDown(s, DoWorker(s, w, Answer(answer)))
  {
    hide WindsDown;
    var f := if answer.CutShort? then FreeingSlot(w, Dropped) else Answered(w, answer.Raw?);
    PhaseWindsDown(s, DoWorker(s, w, Answer(answer)), s.workers[w].page, f);
  }

  lemma {:induction false} PublishWindsDown(s: Stream, w: nat, a: WorkerAct)
    requires CanWorker(s, w, a) && (a.Publish? || a.Abort?)
    ensures WindsDown(s, DoWorker(s, w, a))
  {
    hide WindsDown;
    var k := s.workers[w].page;
    var failed := s.pages[k].phase.failed;
    PhaseWindsDown(s, DoWorker(s, w, a), k, if a.Publish? then Published(w, failed) else FreeingSlot(w, Done(failed)));
  }

  lemma {:induction false} WriterWindsDown(s: Stream, a: WriterAct)
    requires CanWriter(s, a)
    ensures WindsDown(s, DoWriter(s, a))
  {
    hide WindsDown;
    SamePagesWindDown(s, DoWriter(s, a));
  }

  lemma {:induction false} LocalWindsDown(s: Stream, l: Local)
    requires s.halt && CanLocal(s, l)
    ensures WindsDown(s, DoLocal(s, l))
  {
    hide WindsDown, DoReader, DoWorker, DoWriter, CanReader, CanWorker, CanWriter;
    match l
    case ByReader(a) => ReaderWindsDown(s, a);
    case ByWriter(a) => WriterWindsDown(s, a);
    case ByWorker(w, a) =>
      match a {
        case Pop => PopWindsDown(s, w, a);
        case Exit => PopWindsDown(s, w, a);
        case CheckHalt => CheckWindsDown(s, w);
        case Answer(answer) => AnswerWindsDown(s, w, answer);
        case _ => PublishWindsDown(s, w, a);
      }
  }

  lemma {:induction false} MoveUncalled(id: BudgetId, m: Move, f: Phase)
    requires After(id, m, f).Some?
    ensures Uncalled(f) ==> Uncalled(After(id, m, f).value)
  {
  }

  lemma {:induction false} MovedPages(s: Stream, k: nat, id: BudgetId, m: Move)
    requires k < |s.pages| && After(id, m, s.pages[k].phase).Some?
    requires s.pages[k].phase.FreeingStream? ==> s.pages[k].phase.worker < |s.workers|
    ensures var t := StreamAfterMove(s, k, id, m);
            && t.pages == s.pages[k := s.pages[k].(phase := After(id, m, s.pages[k].phase).value)]
            && (t.reader == s.reader || t.reader.LeftLoop?)
  {
    hide After;
  }

  lemma {:induction false} MoveWindsDown(s: Stream, k: nat, id: BudgetId, m: Move)
    requires k < |s.pages| && After(id, m, s.pages[k].phase).Some?
    requires s.pages[k].phase.FreeingStream? ==> s.pages[k].phase.worker < |s.workers|
    ensures WindsDown(s, StreamAfterMove(s, k, id, m))
  {
    hide WindsDown, Uncalled, After, StreamAfterMove;
    MoveUncalled(id, m, s.pages[k].phase);
    MovedPages(s, k, id, m);
    PhaseWindsDown(s, StreamAfterMove(s, k, id, m), k, After(id, m, s.pages[k].phase).value);
  }

  lemma {:induction false} StepWindsDown(g: System, a: Step, i: nat)
    requires Can(g, a) && i < |g.streams| && g.streams[i].halt
    ensures i < |Next(g, a).streams| && WindsDown(g.streams[i], Next(g, a).streams[i])
  {
    hide DoLocal, CanLocal, StreamAfterMove, BudgetAfter, After, WindsDown;
    if a.OnStream? && a.stream == i {
      LocalWindsDown(g.streams[i], a.local);
    } else if a.OnLease? && a.page.stream == i {
      MoveWindsDown(g.streams[i], a.page.page, a.id, a.move);
    } else {
      SamePagesWindDown(g.streams[i], Next(g, a).streams[i]);
    }
  }

  /** Over every run: once a call is halted its reader takes at most the message it is
      already waiting for, and a page still in the queue is never called for. */
  lemma {:induction false} HaltStopsWork(states: seq<System>, steps: seq<Step>, m: nat, n: nat, i: nat)
    requires IsRun(states, steps) && m <= n < |states| && i < |states[m].streams| && states[m].streams[i].halt
    ensures i < |states[n].streams|
    ensures var s, t := states[m].streams[i], states[n].streams[i];
            && |s.pages| <= |t.pages| <= |s.pages| + (if s.reader.InRead? then 1 else 0)
            && forall k :: 0 <= k < |s.pages| && (s.pages[k].phase.Queued? || s.pages[k].phase.Popped?) ==>
                 Uncalled(t.pages[k].phase)
  {
    hide IsRun, Uncalled;
    RunWindsDown(states, steps, m, n, i);
    forall k | 0 <= k < |states[m].streams[i].pages| ensures
      (states[m].streams[i].pages[k].phase.Queued? || states[m].streams[i].pages[k].phase.Popped? ==>
         Uncalled(states[m].streams[i].pages[k].phase))
    {
      WaitingIsUncalled(states[m].streams[i].pages[k].phase);
    }
  }

  lemma {:induction false} WaitingIsUncalled(f: Phase)
    ensures f.Queued? || f.Popped? ==> Uncalled(f)
  {
  }

  lemma {:induction false} RunWindsDown(states: seq<System>, steps: seq<Step>, m: nat, n: nat, i: nat)
    requires IsRun(states, steps) && m <= n < |states| && i < |states[m].streams| && states[m].streams[i].halt
    ensures i < |states[n].streams| && states[n].streams[i].halt
    ensures WindsDown(states[m].streams[i], states[n].streams[i])
    decreases n
  {
    hide IsRun, Can, Next, WindsDown;
    HaltSticks(states, steps, m, n, i);
    RunLength(states, steps);
    if m == n {
      SamePagesWindDown(states[m].streams[i], states[m].streams[i]);
    } else {
      RunWindsDown(states, steps, m, n - 1, i);
      RunStep(states, steps, n - 1);
      StepWindsDown(states[n - 1], steps[n - 1], i);
      WindsDownFurther(states[m].streams[i], states[n - 1].streams[i], states[n].streams[i]);
    }
  }

  lemma {:induction false} WindsDownFurther(s: Stream, t: Stream, u: Stream)
    requires WindsDown(s, t) && WindsDown(t, u)
    ensures WindsDown(s, u)
  {
    hide Uncalled;
  }
}
