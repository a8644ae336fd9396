/** What every step keeps inside one stream. */
module StreamInvariant {
  import opened Common
  import opened Pipeline

  predicate IsAnnounced(f: Phase) {
    f.Announced? || f.Queued? || WorkerOf(f).Some? || f.Finished? || f.Skipped?
  }

  predicate PublishedAs(f: Phase, failed: bool) {
    match f
    case Published(_, b) => b == failed
    case FreeingSlot(_, o) => o == Done(failed)
    case FreeingProcess(_, o) => o == Done(failed)
    case FreeingStream(_, o) => o == Done(failed)
    case Finished(b) => b == failed
    case _ => false
  }

  predicate CountedAs(f: Phase, failed: bool) {
    PublishedAs(f, failed) || (f.Answered? && f.failed == failed)
  }

  predicate Abandoned(f: Phase) {
    match f
    case BackingOut => true
    case Refused => true
    case Skipped => true
    case FreeingSlot(_, o) => o.Dropped?
    case FreeingProcess(_, o) => o.Dropped?
    case FreeingStream(_, o) => o.Dropped?
    case _ => false
  }

  /** Each worker and the page it carries name each other. */
  ghost predicate WorkersLinked(workers: seq<Worker>, pages: seq<Page>) {
    && |workers| >= 1
    && (forall w :: 0 <= w < |workers| && workers[w].Busy? ==> BusyWith(workers, pages, w, workers[w].page))
    && (forall k :: 0 <= k < |pages| && WorkerOf(pages[k].phase).Some? ==>
          BusyWith(workers, pages, WorkerOf(pages[k].phase).value, k))
  }

  /** Only the newest page is with the reader. */
  ghost predicate ReaderLinked(reader: Reader, pages: seq<Page>) {
    && (forall k :: 0 <= k < |pages| && WithReader(pages[k].phase) ==> k == |pages| - 1 && reader.WithPage?)
    && (reader.WithPage? ==> |pages| > 0 && WithReader(pages[|pages| - 1].phase))
  }

  /** The job channel holds exactly the queued pages, each once. */
  ghost predicate JobsLinked(jobs: seq<nat>, pages: seq<Page>) {
    && (forall j :: 0 <= j < |jobs| ==> jobs[j] < |pages| && pages[jobs[j]].phase.Queued?)
    && (forall i, j :: 0 <= i < j < |jobs| ==> jobs[i] != jobs[j])
    && (forall k :: 0 <= k < |pages| && pages[k].phase.Queued? ==> k in jobs)
  }

  ghost predicate EventFits(pages: seq<Page>, e: Event) {
    && e.page < |pages| && e.number == pages[e.page].number
    && match e
       case PageStarted(k, _) => IsAnnounced(pages[k].phase)
       case PageAnswer(k, _, failed) => PublishedAs(pages[k].phase, failed)
  }

  /** The events pushed so far are exactly those the phases call for; two events
      of one page are its start and then its answer. */
  ghost predicate LogLinked(log: seq<Event>, pages: seq<Page>) {
    && (forall j :: 0 <= j < |log| ==> EventFits(pages, log[j]))
    && (forall i, j :: 0 <= i < j < |log| && log[i].page == log[j].page ==>
          log[i].PageStarted? && log[j].PageAnswer?)
    && (forall k :: 0 <= k < |pages| && IsAnnounced(pages[k].phase) ==>
          PageStarted(k, pages[k].number) in log)
    && (forall k, failed :: 0 <= k < |pages| && PublishedAs(pages[k].phase, failed) ==>
          PageAnswer(k, pages[k].number, failed) in log)
  }

  predicate Past(r: Reader) {
    !r.AtLoop? && !r.InRead? && !r.WithPage?
  }

  predicate JobsAreClosed(r: Reader) {
    r.JoiningWorkers? || r.WorkersGone? || r.JoiningWriter? || r.WriterGone? || r.Returned?
  }

  predicate WorkersAreGone(r: Reader) {
    r.WorkersGone? || r.JoiningWriter? || r.WriterGone? || r.Returned?
  }

  /** Channels close in order: jobs, then (workers joined) events, then the
      writer is joined. */
  ghost predicate Closing(reader: Reader, workers: seq<Worker>, writer: Writer, jobs: seq<nat>, jobsClosed: bool,
                          eventsClosed: bool) {
    && (jobsClosed <==> JobsAreClosed(reader))
    && (eventsClosed <==> reader.JoiningWriter? || reader.WriterGone? || reader.Returned?)
    && (forall w :: 0 <= w < |workers| && workers[w].Exited? ==> jobsClosed && jobs == [])
    && (WorkersAreGone(reader) ==> forall w :: 0 <= w < |workers| ==> workers[w].Exited?)
    && (reader.WriterGone? || reader.Returned? ==> writer.Stopped?)
  }

  /** Accepted events, the one in the writer's hand and the queued ones are the
      pushed events in order; a writer that stopped although the client is
      still there delivered all of them. */
  ghost predicate WireLinked(log: seq<Event>, wire: seq<Event>, events: seq<Event>, eventsClosed: bool, writer: Writer,
                             clientGone: bool) {
    && wire <= log
    && match writer
       case Polling => !clientGone && log == wire + events
       case Popping => !clientGone && log == wire + events
       case Writing(e) => !clientGone && log == wire + [e] + events
       case ClientGone => clientGone
       case Stopped => clientGone || (log == wire && events == [] && eventsClosed)
  }

  datatype Tallied = TStarted | TOk | TFailed

  predicate Counts(t: Tallied, f: Phase) {
    match t
    case TStarted => IsAnnounced(f)
    case TOk => CountedAs(f, false)
    case TFailed => CountedAs(f, true)
  }

  function Tally(pages: seq<Page>, t: Tallied): nat {
    if pages == [] then 0
    else Tally(pages[..|pages| - 1], t) + if Counts(t, pages[|pages| - 1].phase) then 1 else 0
  }

  ghost predicate Counted(pages: seq<Page>, started: nat, ok: nat, pageFailed: nat) {
    started == Tally(pages, TStarted) && ok == Tally(pages, TOk) && pageFailed == Tally(pages, TFailed)
  }

  /** A halted stream has one of three reasons, and only a halted stream
      abandons a page. */
  ghost predicate Halts(halt: bool, excused: bool, pages: seq<Page>) {
    && (halt ==> excused)
    && (forall k :: 0 <= k < |pages| && Abandoned(pages[k].phase) ==> halt)
  }

  ghost predicate Excused(s: Stream) {
    s.clientGone || s.error.Some? || (s.config.abortOnError && s.pageFailed > 0)
  }

  ghost predicate Settles(s: Stream) {
    && (s.error.Some? ==> Past(s.reader))
    && match s.reader
       case Returned(StatusOk) =>
         && s.error.None? && !s.clientGone && s.sawInput && !(s.config.abortOnError && s.pageFailed > 0)
         && s.trailer == Some(Trailer(s.started, s.ok, s.pageFailed))
         && s.converted == 1 && s.rejected == 0 && s.failed == 0
       case Returned(StatusCancelled) => s.trailer.None? && s.converted == 0 && s.rejected == 0 && s.failed == 0
       case Returned(StatusAborted) =>
         && s.trailer.None? && s.converted == 0 && s.rejected == 0 && s.failed == 1
         && s.config.abortOnError && s.pageFailed > 0
       case Returned(StatusError(_)) => s.trailer.None? && s.converted == 0 && s.rejected == 1 && s.failed == 0
       case _ => s.trailer.None? && s.converted == 0 && s.failed == 0 && s.rejected == if s.error.Some? then 1 else 0
  }

  ghost predicate StreamInv(s: Stream) {
    && WorkersLinked(s.workers, s.pages)
    && ReaderLinked(s.reader, s.pages)
    && JobsLinked(s.jobs, s.pages)
    && LogLinked(s.log, s.pages)
    && WireLinked(s.log, s.wire, s.events, s.eventsClosed, s.writer, s.clientGone)
    && Counted(s.pages, s.started, s.ok, s.pageFailed)
    && Halts(s.halt, Excused(s), s.pages)
    && Closing(s.reader, s.workers, s.writer, s.jobs, s.jobsClosed, s.eventsClosed)
    && Settles(s)
  }

  // ---- tallies -----------------------------------------------------------

  lemma {:induction false} TallyUpdate(pages: seq<Page>, k: nat, p: Page, t: Tallied)
    requires k < |pages|
    ensures Tally(pages[k := p], t) + (if Counts(t, pages[k].phase) then 1 else 0)
         == Tally(pages, t) + (if Counts(t, p.phase) then 1 else 0)
  {
    var n := |pages| - 1;
    if k == n {
      assert pages[k := p][..n] == pages[..n];
    } else {
      TallyUpdate(pages[..n], k, p, t);
      assert pages[k := p][..n] == pages[..n][k := p];
    }
  }

  lemma {:induction false} TallyPositive(pages: seq<Page>, k: nat, t: Tallied)
    requires k < |pages|
    ensures Counts(t, pages[k].phase) ==> Tally(pages, t) > 0
  {
    if k < |pages| - 1 {
      TallyPositive(pages[..|pages| - 1], k, t);
    }
  }

  lemma {:induction false} TallyNewPage(pages: seq<Page>, p: Page)
    requires p.phase.Validated?
    ensures Tally(pages + [p], TStarted) == Tally(pages, TStarted)
    ensures Tally(pages + [p], TOk) == Tally(pages, TOk)
    ensures Tally(pages + [p], TFailed) == Tally(pages, TFailed)
  {
    assert (pages + [p])[..|pages|] == pages;
  }

  /** The counters follow one page changing its phase. */
  lemma {:induction false} TallyPhase(s: Stream, k: nat, f: Phase)
    requires k < |s.pages|
    ensures var pages := SetPhase(s, k, f).pages;
            && Tally(pages, TStarted) == Tally(s.pages, TStarted) + Gain(TStarted, s.pages[k].phase, f)
            && Tally(pages, TOk) == Tally(s.pages, TOk) + Gain(TOk, s.pages[k].phase, f)
            && Tally(pages, TFailed) == Tally(s.pages, TFailed) + Gain(TFailed, s.pages[k].phase, f)
  {
    TallyUpdate(s.pages, k, s.pages[k].(phase := f), TStarted);
    TallyUpdate(s.pages, k, s.pages[k].(phase := f), TOk);
    TallyUpdate(s.pages, k, s.pages[k].(phase := f), TFailed);
  }

  function Gain(t: Tallied, f: Phase, f': Phase): int {
    (if Counts(t, f') then 1 else 0) - if Counts(t, f) then 1 else 0
  }

  // ---- one page changes its phase ----------------------------------------

  function Repaint(pages: seq<Page>, k: nat, f: Phase): seq<Page>
    requires k < |pages|
  {
    pages[k := pages[k].(phase := f)]
  }

  lemma {:induction false} SameWorker(s: Stream, k: nat, f: Phase)
    requires k < |s.pages| && WorkersLinked(s.workers, s.pages) && WorkerOf(f) == WorkerOf(s.pages[k].phase)
    ensures WorkersLinked(s.workers, Repaint(s.pages, k, f))
  {
  }

  lemma {:induction false} SameReader(s: Stream, k: nat, f: Phase)
    requires k < |s.pages| && ReaderLinked(s.reader, s.pages) && WithReader(f) == WithReader(s.pages[k].phase)
    ensures ReaderLinked(s.reader, Repaint(s.pages, k, f))
  {
  }

  lemma {:induction false} SameQueue(s: Stream, k: nat, f: Phase)
    requires k < |s.pages| && JobsLinked(s.jobs, s.pages) && f.Queued? == s.pages[k].phase.Queued?
    ensures JobsLinked(s.jobs, Repaint(s.pages, k, f))
  {
  }

  lemma {:induction false} SameLog(s: Stream, k: nat, f: Phase)
    requires k < |s.pages| && LogLinked(s.log, s.pages) && IsAnnounced(f) == IsAnnounced(s.pages[k].phase)
    requires forall b :: PublishedAs(f, b) == PublishedAs(s.pages[k].phase, b)
    ensures LogLinked(s.log, Repaint(s.pages, k, f))
  {
  }

  lemma {:induction false} SameHalts(s: Stream, k: nat, f: Phase)
    requires k < |s.pages| && Halts(s.halt, Excused(s), s.pages) && (Abandoned(f) ==> s.halt)
    ensures Halts(s.halt, Excused(s), Repaint(s.pages, k, f))
  {
  }

  /** A change of phase that concerns no queue, event, counter or owner. */
  predicate QuietChange(f: Phase, f': Phase) {
    && WorkerOf(f) == WorkerOf(f') && WithReader(f) == WithReader(f') && !f.Queued? && !f'.Queued?
    && IsAnnounced(f) == IsAnnounced(f')
    && PublishedAs(f, true) == PublishedAs(f', true) && PublishedAs(f, false) == PublishedAs(f', false)
    && CountedAs(f, true) == CountedAs(f', true) && CountedAs(f, false) == CountedAs(f', false)
  }

  lemma {:induction false} QuietPhase(s: Stream, k: nat, f: Phase)
    requires StreamInv(s) && k < |s.pages| && QuietChange(s.pages[k].phase, f) && (Abandoned(f) ==> s.halt)
    ensures StreamInv(SetPhase(s, k, f))
  {
    hide WorkersLinked, ReaderLinked, JobsLinked, LogLinked, WireLinked, Halts, Closing, Tally;
    TallyPhase(s, k, f);
    SameWorker(s, k, f);
    SameReader(s, k, f);
    SameQueue(s, k, f);
    SameLog(s, k, f);
    SameHalts(s, k, f);
  }

  lemma {:induction false} LogGainsStart(s: Stream, k: nat, f: Phase)
    requires k < |s.pages| && LogLinked(s.log, s.pages)
    requires !IsAnnounced(s.pages[k].phase) && IsAnnounced(f)
    requires forall b :: !PublishedAs(s.pages[k].phase, b) && !PublishedAs(f, b)
    ensures LogLinked(s.log + [PageStarted(k, s.pages[k].number)], Repaint(s.pages, k, f))
  {
    var log := s.log + [PageStarted(k, s.pages[k].number)];
    assert log[|s.log|] == PageStarted(k, s.pages[k].number);
  }

  lemma {:induction false} LogGainsAnswer(s: Stream, k: nat, f: Phase, failed: bool)
    requires k < |s.pages| && LogLinked(s.log, s.pages)
    requires IsAnnounced(s.pages[k].phase) && IsAnnounced(f)
    requires forall b :: !PublishedAs(s.pages[k].phase, b)
    requires PublishedAs(f, failed) && !PublishedAs(f, !failed)
    ensures LogLinked(s.log + [PageAnswer(k, s.pages[k].number, failed)], Repaint(s.pages, k, f))
  {
    var log := s.log + [PageAnswer(k, s.pages[k].number, failed)];
    assert log[|s.log|] == PageAnswer(k, s.pages[k].number, failed);
  }

  lemma {:induction false} WireGains(s: Stream, e: Event)
    requires WireLinked(s.log, s.wire, s.events, s.eventsClosed, s.writer, s.clientGone) && !s.eventsClosed
    ensures WireLinked(s.log + [e], s.wire, s.events + [e], s.eventsClosed, s.writer, s.clientGone)
  {
    assert s.wire + (s.events + [e]) == s.wire + s.events + [e];
  }

  // ---- local steps -------------------------------------------------------

  lemma {:induction false} KeepsCheckLoop(s: Stream)
    requires StreamInv(s) && CanReader(s, CheckLoop)
    ensures StreamInv(DoReader(s, CheckLoop))
  {
    hide WorkersLinked, JobsLinked, LogLinked, WireLinked, Counted, Halts, Tally;
  }

  lemma {:induction false} KeepsRead(s: Stream, m: Message)
    requires StreamInv(s) && CanReader(s, Read(m))
    ensures StreamInv(DoReader(s, Read(m)))
  {
    hide WorkersLinked, JobsLinked, LogLinked, WireLinked, Halts, Tally, Problem;
    if m.Image? {
      TallyNewPage(s.pages, Page(m.number, m.bytes, Validated));
      NewPageLinks(s, Page(m.number, m.bytes, Validated));
    }
    StillExcused(s.halt, Excused(s), Excused(DoReader(s, Read(m))), s.pages);
  }

  lemma {:induction false} NewPageLinks(s: Stream, p: Page)
    requires StreamInv(s) && p.phase.Validated?
    ensures WorkersLinked(s.workers, s.pages + [p]) && JobsLinked(s.jobs, s.pages + [p]) &&
            LogLinked(s.log, s.pages + [p])
    ensures Halts(s.halt, Excused(s), s.pages + [p])
  {
    hide WireLinked, ReaderLinked, Counted, Closing, Settles, Excused;
  }

  lemma {:induction false} StillExcused(halt: bool, excused: bool, excusedNow: bool, pages: seq<Page>)
    requires Halts(halt, excused, pages) && (excused ==> excusedNow)
    ensures Halts(halt, excusedNow, pages)
  {
  }

  lemma {:induction false} KeepsAnnounce(s: Stream)
    requires StreamInv(s) && CanReader(s, Announce)
    ensures StreamInv(DoReader(s, Announce))
  {
    hide JobsLinked, LogLinked, WireLinked, Halts, Tally;
    var k, f := |s.pages| - 1, Announced;
    TallyPhase(s, k, f);
    SameWorker(s, k, f);
    SameReader(s, k, f);
    SameQueue(s, k, f);
    SameHalts(s, k, f);
    LogGainsStart(s, k, f);
    WireGains(s, PageStarted(k, s.pages[k].number));
  }

  lemma {:induction false} KeepsEnqueue(s: Stream)
    requires StreamInv(s) && CanReader(s, Enqueue)
    ensures StreamInv(DoReader(s, Enqueue))
  {
    hide LogLinked, WireLinked, Halts, Tally;
    var k, f := |s.pages| - 1, Queued;
    TallyPhase(s, k, f);
    SameWorker(s, k, f);
    SameLog(s, k, f);
    SameHalts(s, k, f);
  }

  lemma {:induction false} KeepsSettle(s: Stream)
    requires StreamInv(s) && CanReader(s, Settle)
    ensures StreamInv(DoReader(s, Settle))
  {
    hide WorkersLinked, JobsLinked, LogLinked, WireLinked, Counted, Tally;
  }

  lemma {:induction false} KeepsCloseJobs(s: Stream)
    requires StreamInv(s) && CanReader(s, CloseJobs)
    ensures StreamInv(DoReader(s, CloseJobs))
  {
    hide WorkersLinked, JobsLinked, LogLinked, WireLinked, Counted, Halts, Tally;
  }

  lemma {:induction false} KeepsJoinWorkers(s: Stream)
    requires StreamInv(s) && CanReader(s, JoinWorkers)
    ensures StreamInv(DoReader(s, JoinWorkers))
  {
    hide WorkersLinked, JobsLinked, LogLinked, WireLinked, Counted, Halts, Tally;
  }

  lemma {:induction false} KeepsCloseEvents(s: Stream)
    requires StreamInv(s) && CanReader(s, CloseEvents)
    ensures StreamInv(DoReader(s, CloseEvents))
  {
    hide WorkersLinked, JobsLinked, LogLinked, Counted, Halts, Tally;
  }

  lemma {:induction false} KeepsJoinWriter(s: Stream)
    requires StreamInv(s) && CanReader(s, JoinWriter)
    ensures StreamInv(DoReader(s, JoinWriter))
  {
    hide WorkersLinked, JobsLinked, LogLinked, WireLinked, Counted, Halts, Tally;
  }

  lemma {:induction false} KeepsReturn(s: Stream, cancelled: bool)
    requires StreamInv(s) && CanReader(s, Return(cancelled))
    ensures StreamInv(DoReader(s, Return(cancelled)))
  {
    hide WorkersLinked, JobsLinked, LogLinked, WireLinked, Counted, Halts, Tally;
  }

  lemma {:induction false} KeepsPop(s: Stream, w: nat)
    requires StreamInv(s) && CanWorker(s, w, Pop)
    ensures StreamInv(DoWorker(s, w, Pop))
  {
    hide ReaderLinked, LogLinked, WireLinked, Halts, Tally;
    var k, f := s.jobs[0], Popped(w);
    TallyPhase(s, k, f);
    SameReader(s, k, f);
    SameLog(s, k, f);
    SameHalts(s, k, f);
  }

  lemma {:induction false} KeepsExit(s: Stream, w: nat)
    requires StreamInv(s) && CanWorker(s, w, Exit)
    ensures StreamInv(DoWorker(s, w, Exit))
  {
    hide ReaderLinked, JobsLinked, LogLinked, WireLinked, Counted, Halts, Tally;
  }

  lemma {:induction false} KeepsCheckHalt(s: Stream, w: nat)
    requires StreamInv(s) && CanWorker(s, w, CheckHalt)
    ensures StreamInv(DoWorker(s, w, CheckHalt))
  {
    hide StreamInv;
    QuietPhase(s, s.workers[w].page, if s.halt then FreeingProcess(w, Dropped) else Cleared(w));
  }

  lemma {:induction false} KeepsAnswer(s: Stream, w: nat, x: Answer)
    requires StreamInv(s) && CanWorker(s, w, WorkerAct.Answer(x))
    ensures StreamInv(DoWorker(s, w, WorkerAct.Answer(x)))
  {
    hide JobsLinked, LogLinked, WireLinked, Tally;
    var k := s.workers[w].page;
    var f := if x.Document? then Answered(w, false) else if x.Raw? then Answered(w, true) else FreeingSlot(w, Dropped);
    TallyPhase(s, k, f);
    SameWorker(s, k, f);
    SameReader(s, k, f);
    SameQueue(s, k, f);
    SameLog(s, k, f);
    SameHalts(s, k, f);
  }

  lemma {:induction false} KeepsPublish(s: Stream, w: nat)
    requires StreamInv(s) && CanWorker(s, w, Publish)
    ensures StreamInv(DoWorker(s, w, Publish))
  {
    hide JobsLinked, LogLinked, WireLinked, Halts, Tally;
    var k := s.workers[w].page;
    var failed := s.pages[k].phase.failed;
    var f := Published(w, failed);
    TallyPhase(s, k, f);
    SameWorker(s, k, f);
    SameReader(s, k, f);
    SameQueue(s, k, f);
    SameHalts(s, k, f);
    LogGainsAnswer(s, k, f, failed);
    WireGains(s, PageAnswer(k, s.pages[k].number, failed));
  }

  lemma {:induction false} KeepsAbort(s: Stream, w: nat)
    requires StreamInv(s) && CanWorker(s, w, Abort)
    ensures StreamInv(DoWorker(s, w, Abort))
  {
    hide JobsLinked, LogLinked, WireLinked, Closing, Tally;
    var k, f := s.workers[w].page, FreeingSlot(w, Done(s.pages[s.workers[w].page].phase.failed));
    TallyPhase(s, k, f);
    SameWorker(s, k, f);
    SameReader(s, k, f);
    SameQueue(s, k, f);
    SameLog(s, k, f);
    TallyPositive(s.pages, s.workers[w].page, TFailed);
  }

  lemma {:induction false} KeepsPollClient(s: Stream, cancelled: bool)
    requires StreamInv(s) && CanWriter(s, PollClient(cancelled))
    ensures StreamInv(DoWriter(s, PollClient(cancelled)))
  {
    hide WorkersLinked, ReaderLinked, JobsLinked, LogLinked, Counted, Tally;
  }

  lemma {:induction false} KeepsPopEvent(s: Stream)
    requires StreamInv(s) && CanWriter(s, PopEvent)
    ensures StreamInv(DoWriter(s, PopEvent))
  {
    hide WorkersLinked, ReaderLinked, JobsLinked, LogLinked, WireLinked, Counted, Halts, Tally;
    PoppedWire(s.log, s.wire, s.events, s.eventsClosed, s.clientGone);
  }

  lemma {:induction false} PoppedWire(log: seq<Event>, wire: seq<Event>, events: seq<Event>, eventsClosed: bool,
      clientGone: bool)
    requires WireLinked(log, wire, events, eventsClosed, Popping, clientGone) && (|events| > 0 || eventsClosed)
    ensures if |events| > 0 then WireLinked(log, wire, events[1..], eventsClosed, Writing(events[0]), clientGone)
            else WireLinked(log, wire, events, eventsClosed, Stopped, clientGone)
  {
    if |events| > 0 {
      assert events == [events[0]] + events[1..];
    }
  }

  lemma {:induction false} KeepsTimeout(s: Stream)
    requires StreamInv(s) && CanWriter(s, Timeout)
    ensures StreamInv(DoWriter(s, Timeout))
  {
    hide WorkersLinked, ReaderLinked, JobsLinked, LogLinked, Counted, Halts, Tally;
  }

  lemma {:induction false} KeepsWrite(s: Stream, accepted: bool)
    requires StreamInv(s) && CanWriter(s, Write(accepted))
    ensures StreamInv(DoWriter(s, Write(accepted)))
  {
    hide WorkersLinked, ReaderLinked, JobsLinked, LogLinked, Counted, Tally;
  }

  lemma {:induction false} KeepsMarkHalt(s: Stream)
    requires StreamInv(s) && CanWriter(s, MarkHalt)
    ensures StreamInv(DoWriter(s, MarkHalt))
  {
    hide WorkersLinked, ReaderLinked, JobsLinked, LogLinked, Counted, Tally;
  }

  lemma {:induction false} ReaderKeeps(s: Stream, a: ReaderAct)
    requires StreamInv(s) && CanReader(s, a)
    ensures StreamInv(DoReader(s, a))
  {
    hide StreamInv, DoReader, CanReader;
    match a
    case CheckLoop => KeepsCheckLoop(s);
    case Read(m) => KeepsRead(s, m);
    case Announce => KeepsAnnounce(s);
    case Enqueue => KeepsEnqueue(s);
    case Settle => KeepsSettle(s);
    case CloseJobs => KeepsCloseJobs(s);
    case JoinWorkers => KeepsJoinWorkers(s);
    case CloseEvents => KeepsCloseEvents(s);
    case JoinWriter => KeepsJoinWriter(s);
    case Return(cancelled) => KeepsReturn(s, cancelled);
  }

  lemma {:induction false} WorkerKeeps(s: Stream, w: nat, a: WorkerAct)
    requires StreamInv(s) && CanWorker(s, w, a)
    ensures StreamInv(DoWorker(s, w, a))
  {
    hide StreamInv, DoWorker, CanWorker;
    match a
    case Pop => KeepsPop(s, w);
    case Exit => KeepsExit(s, w);
    case CheckHalt => KeepsCheckHalt(s, w);
    case Answer(x) => KeepsAnswer(s, w, x);
    case Publish => KeepsPublish(s, w);
    case Abort => KeepsAbort(s, w);
  }

  lemma {:induction false} WriterKeeps(s: Stream, a: WriterAct)
    requires StreamInv(s) && CanWriter(s, a)
    ensures StreamInv(DoWriter(s, a))
  {
    hide StreamInv, DoWriter, CanWriter;
    match a
    case PollClient(cancelled) => KeepsPollClient(s, cancelled);
    case PopEvent => KeepsPopEvent(s);
    case Timeout => KeepsTimeout(s);
    case Write(accepted) => KeepsWrite(s, accepted);
    case MarkHalt => KeepsMarkHalt(s);
  }

  lemma {:induction false} LocalKeeps(s: Stream, a: Local)
    requires StreamInv(s) && CanLocal(s, a)
    ensures StreamInv(DoLocal(s, a))
  {
    hide StreamInv;
    match a
    case ByReader(r) => ReaderKeeps(s, r);
    case ByWorker(w, x) => WorkerKeeps(s, w, x);
    case ByWriter(x) => WriterKeeps(s, x);
  }

  // ---- lease steps -------------------------------------------------------

  lemma {:induction false} QuietAfter(id: BudgetId, m: Move, f: Phase)
    requires After(id, m, f).Some? && !After(id, m, f).value.Refused? && !f.FreeingStream?
    ensures QuietChange(f, After(id, m, f).value)
  {
  }

  lemma {:induction false} QuietMove(s: Stream, k: nat, id: BudgetId, m: Move)
    requires StreamInv(s) && k < |s.pages| && After(id, m, s.pages[k].phase).Some?
    requires !After(id, m, s.pages[k].phase).value.Refused? && !s.pages[k].phase.FreeingStream?
    requires m.OutOfLine? ==> s.halt
    ensures StreamInv(StreamAfterMove(s, k, id, m))
  {
    hide StreamInv, After, QuietChange;
    QuietAfter(id, m, s.pages[k].phase);
    AbandonedStays(s, k, id, m);
    QuietPhase(s, k, After(id, m, s.pages[k].phase).value);
  }

  lemma {:induction false} RefusingMove(s: Stream, k: nat, id: BudgetId, m: Move)
    requires StreamInv(s) && k < |s.pages| && After(id, m, s.pages[k].phase) == Some(Refused)
    requires m.OutOfLine? ==> s.halt
    ensures StreamInv(StreamAfterMove(s, k, id, m))
  {
    hide WorkersLinked, JobsLinked, LogLinked, WireLinked, Halts, Tally;
    TallyPhase(s, k, Refused);
    SameWorker(s, k, Refused);
    SameQueue(s, k, Refused);
    SameLog(s, k, Refused);
    AbandonedStays(s, k, id, m);
    SameHalts(s, k, Refused);
  }

  lemma {:induction false} WorkerFreed(s: Stream, k: nat, f: Phase, w: nat)
    requires k < |s.pages| && WorkersLinked(s.workers, s.pages)
    requires WorkerOf(s.pages[k].phase) == Some(w) && WorkerOf(f).None? && w < |s.workers|
    ensures WorkersLinked(s.workers[w := Idle], Repaint(s.pages, k, f))
    ensures s.workers[w].Busy?
  {
  }

  lemma {:induction false} ClosingFreed(s: Stream, w: nat)
    requires w < |s.workers| && s.workers[w].Busy?
    requires Closing(s.reader, s.workers, s.writer, s.jobs, s.jobsClosed, s.eventsClosed)
    ensures Closing(s.reader, s.workers[w := Idle], s.writer, s.jobs, s.jobsClosed, s.eventsClosed)
  {
  }

  /** A worker is free once its page's last lease is given back. */
  lemma {:induction false} FreeingMove(s: Stream, k: nat, f: Phase, w: nat)
    requires StreamInv(s) && k < |s.pages| && w < |s.workers|
    requires s.pages[k].phase.FreeingStream? && s.pages[k].phase.worker == w
    requires f == if s.pages[k].phase.outcome.Done? then Finished(s.pages[k].phase.outcome.failed) else Skipped
    ensures StreamInv(s.(pages := Repaint(s.pages, k, f), workers := s.workers[w := Idle]))
  {
    hide WorkersLinked, ReaderLinked, JobsLinked, LogLinked, WireLinked, Halts, Closing, Tally;
    TallyPhase(s, k, f);
    WorkerFreed(s, k, f, w);
    ClosingFreed(s, w);
    SameReader(s, k, f);
    SameQueue(s, k, f);
    SameLog(s, k, f);
    AbandonedStays(s, k, StreamBytes(0), GiveBack);
    SameHalts(s, k, f);
  }

  /** A lease step keeps the stream's own invariant; only a halted stream may
      take a page out of a line. */
  lemma {:induction false} MoveKeeps(s: Stream, k: nat, id: BudgetId, m: Move)
    requires StreamInv(s) && k < |s.pages| && After(id, m, s.pages[k].phase).Some?
    requires s.pages[k].phase.FreeingStream? ==> s.pages[k].phase.worker < |s.workers|
    requires m.OutOfLine? ==> s.halt
    ensures StreamInv(StreamAfterMove(s, k, id, m))
  {
    hide StreamInv;
    if After(id, m, s.pages[k].phase).value.Refused? {
      RefusingMove(s, k, id, m);
    } else if s.pages[k].phase.FreeingStream? {
      FreeingMove(s, k, After(id, m, s.pages[k].phase).value, s.pages[k].phase.worker);
    } else {
      QuietMove(s, k, id, m);
    }
  }

  lemma {:induction false} AbandonedStays(s: Stream, k: nat, id: BudgetId, m: Move)
    requires StreamInv(s) && k < |s.pages| && After(id, m, s.pages[k].phase).Some?
    requires m.OutOfLine? ==> s.halt
    ensures Abandoned(After(id, m, s.pages[k].phase).value) ==> s.halt
  {
    hide WorkersLinked, ReaderLinked, JobsLinked, LogLinked, WireLinked, Counted, Closing, Settles;
  }

  // ---- new streams -------------------------------------------------------

  lemma {:induction false} NewStreamFine(config: Config)
    requires config.workers >= 1
    ensures StreamInv(NewStream(config))
  {
    hide JobsLinked, LogLinked;
    var s := NewStream(config);
    EmptyFine(s);
    assert forall w :: 0 <= w < |s.workers| ==> s.workers[w].Idle?;
  }

  lemma {:induction false} EmptyFine(s: Stream)
    requires s.pages == [] && s.jobs == [] && s.log == []
    ensures JobsLinked(s.jobs, s.pages) && LogLinked(s.log, s.pages) && Halts(false, Excused(s), s.pages)
  {
  }

  lemma {:induction false} RejectedCallFine(code: Code)
    ensures StreamInv(RejectedCall(code))
  {
    hide JobsLinked, LogLinked;
    EmptyFine(RejectedCall(code));
  }
}
