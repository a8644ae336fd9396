/** The ConvertPages pipeline (src/service/vlm_convert_service.cpp) as a step
    system: any number of streams, each with one reader, some workers and one
    writer, interleaved arbitrarily.

    A step is one access to shared state: a channel operation, a store or load
    of an atomic, or one section under a budget's lock. Two steps take a counter
    along: `Announce` raises `started`, which only the reader reads, and `Answer`
    raises `ok` or `page_failed`, which only the reader reads and only after it
    has joined the workers; so no thread can tell the counter from the rest of
    the step. Everything a page goes through is its `Phase`; what the page holds and what it waits for follow
    from it. Pages are named by their position in the stream, because a client
    may send the same page number twice. */
module Pipeline {
  import opened Common
  import opened Ledgers

  datatype PageId = PageId(stream: nat, page: nat)
  datatype BudgetId = StreamBytes(stream: nat) | ProcessBytes | CallSlots

  /** Why a page left its worker: answered (`failed` tells PageRaw from
      PageDocument) or dropped because the stream halted. */
  datatype Outcome = Done(failed: bool) | Dropped

  datatype Phase =
    // with the reader
    | Validated | InStreamLine | GotStreamBytes | InProcessLine | GotBothBytes | Announced
    | BackingOut | Refused
    // in the job channel
    | Queued
    // with a worker
    | Popped(worker: nat) | Cleared(worker: nat) | InSlotLine(worker: nat) | Calling(worker: nat)
    | Answered(worker: nat, failed: bool) | Published(worker: nat, failed: bool)
    | FreeingSlot(worker: nat, outcome: Outcome)
    | FreeingProcess(worker: nat, outcome: Outcome)
    | FreeingStream(worker: nat, outcome: Outcome)
    // gone
    | Finished(failed: bool) | Skipped

  datatype Page = Page(number: nat, bytes: nat, phase: Phase)

  datatype Event = PageStarted(page: nat, number: nat) | PageAnswer(page: nat, number: nat, failed: bool)
  datatype Trailer = Trailer(started: nat, ok: nat, failed: nat)

  datatype Code = InvalidArgument | Unimplemented | ResourceExhausted | OtherCode
  datatype Status = StatusOk | StatusCancelled | StatusAborted | StatusError(code: Code)

  datatype Reader = AtLoop | InRead | WithPage | LeftLoop | Settled | JoiningWorkers | WorkersGone | JoiningWriter
                  | WriterGone | Returned(status: Status)
  datatype Worker = Idle | Busy(page: nat) | Exited
  datatype Writer = Polling | Popping | Writing(event: Event) | ClientGone | Stopped

  datatype Config = Config(workers: nat, streamBytes: nat, maxPages: nat, maxPageBytes: nat, abortOnError: bool)

  datatype Stream = Stream(
    config: Config,
    pages: seq<Page>,
    reader: Reader,
    workers: seq<Worker>,
    writer: Writer,
    jobs: seq<nat>, jobsClosed: bool,
    events: seq<Event>, eventsClosed: bool,
    log: seq<Event>,     // every event pushed so far
    wire: seq<Event>,    // every event write() accepted
    halt: bool, clientGone: bool,
    sawInput: bool, error: Option<Code>,
    started: nat, ok: nat, pageFailed: nat,
    trailer: Option<Trailer>,
    converted: nat, rejected: nat, failed: nat)

  datatype System = System(streams: seq<Stream>, budgets: map<BudgetId, Ledger<PageId>>)

  // ---- what a phase holds and waits for ----------------------------------

  predicate HoldsStream(f: Phase) {
    f.GotStreamBytes? || f.InProcessLine? || f.GotBothBytes? || f.Announced? || f.BackingOut? || f.Queued? ||
    f.Popped? || f.Cleared? || f.InSlotLine? || f.Calling? || f.Answered? || f.Published? ||
    f.FreeingSlot? || f.FreeingProcess? || f.FreeingStream?
  }

  predicate HoldsProcess(f: Phase) {
    HoldsStream(f) && !f.GotStreamBytes? && !f.InProcessLine? && !f.BackingOut? && !f.FreeingStream?
  }

  predicate HoldsSlot(f: Phase) {
    f.Calling? || f.Answered? || f.Published? || f.FreeingSlot?
  }

  predicate Holds(id: BudgetId, p: PageId, f: Phase) {
    match id
    case StreamBytes(i) => p.stream == i && HoldsStream(f)
    case ProcessBytes => HoldsProcess(f)
    case CallSlots => HoldsSlot(f)
  }

  predicate Waits(id: BudgetId, p: PageId, f: Phase) {
    match id
    case StreamBytes(i) => p.stream == i && f.InStreamLine?
    case ProcessBytes => f.InProcessLine?
    case CallSlots => f.InSlotLine?
  }

  predicate WithReader(f: Phase) {
    f.Validated? || f.InStreamLine? || f.GotStreamBytes? || f.InProcessLine? || f.GotBothBytes? || f.Announced? ||
    f.BackingOut?
  }

  function WorkerOf(f: Phase): Option<nat> {
    if f.Popped? || f.Cleared? || f.InSlotLine? || f.Calling? || f.Answered? || f.Published? ||
       f.FreeingSlot? || f.FreeingProcess? || f.FreeingStream?
    then Some(f.worker) else None
  }

  predicate Gone(f: Phase) {
    f.Refused? || f.Finished? || f.Skipped?
  }

  predicate Exists(g: System, p: PageId) {
    p.stream < |g.streams| && p.page < |g.streams[p.stream].pages|
  }

  function PhaseOf(g: System, p: PageId): Phase
    requires Exists(g, p)
  {
    g.streams[p.stream].pages[p.page].phase
  }

  function SetPhase(s: Stream, k: nat, f: Phase): Stream
    requires k < |s.pages|
  {
    s.(pages := s.pages[k := s.pages[k].(phase := f)])
  }

  function SetWorker(s: Stream, w: nat, x: Worker): Stream
    requires w < |s.workers|
  {
    s.(workers := s.workers[w := x])
  }

  function Push(s: Stream, e: Event): Stream {
    s.(events := s.events + [e], log := s.log + [e])
  }

  // ---- lease steps --------------------------------------------------------

  datatype Move = ToLine | ToLease | OutOfLine | GiveBack

  /** The phase a page is in after move `m` on budget `id`. */
  function After(id: BudgetId, m: Move, f: Phase): Option<Phase> {
    match m
    case ToLine =>
      if id.StreamBytes? && f.Validated? then Some(InStreamLine)
      else if id.ProcessBytes? && f.GotStreamBytes? then Some(InProcessLine)
      else if id.CallSlots? && f.Cleared? then Some(InSlotLine(f.worker))
      else None
    case ToLease =>
      if id.StreamBytes? && f.InStreamLine? then Some(GotStreamBytes)
      else if id.ProcessBytes? && f.InProcessLine? then Some(GotBothBytes)
      else if id.CallSlots? && f.InSlotLine? then Some(Calling(f.worker))
      else None
    case OutOfLine =>
      if id.StreamBytes? && f.InStreamLine? then Some(Refused)
      else if id.ProcessBytes? && f.InProcessLine? then Some(BackingOut)
      else if id.CallSlots? && f.InSlotLine? then Some(FreeingProcess(f.worker, Dropped))
      else None
    case GiveBack =>
      if id.StreamBytes? && f.BackingOut? then Some(Refused)
      else if id.CallSlots? && f.FreeingSlot? then Some(FreeingProcess(f.worker, f.outcome))
      else if id.ProcessBytes? && f.FreeingProcess? then Some(FreeingStream(f.worker, f.outcome))
      else if id.StreamBytes? && f.FreeingStream? then
        Some(if f.outcome.Done? then Finished(f.outcome.failed) else Skipped)
      else None
  }

  /** How the owning thread moves on when its page changes from `f` to `f'`: the
      reader leaves its loop with a refused page, and a worker is free again
      once its page is gone. */
  function Follow(s: Stream, f: Phase, f': Phase): Stream
    requires f.FreeingStream? ==> f.worker < |s.workers|
  {
    if f'.Refused? then s.(reader := LeftLoop)
    else if f.FreeingStream? then SetWorker(s, f.worker, Idle)
    else s
  }

  predicate LineFrontIs(b: Ledger<PageId>, p: PageId) {
    |b.line| > 0 && b.line[0].owner == p
  }

  predicate CanMove(g: System, id: BudgetId, p: PageId, m: Move, at: nat) {
    && id in g.budgets && Exists(g, p)
    && (id.StreamBytes? ==> id.stream == p.stream)
    && var s, b, f := g.streams[p.stream], g.budgets[id], PhaseOf(g, p);
    && After(id, m, f).Some?
    && (f.FreeingStream? ==> f.worker < |s.workers|)
    && match m
       case ToLine => true
       case ToLease => LineFrontIs(b, p) && FrontFits(b)
       case OutOfLine => s.halt && at < |b.line| && b.line[at].owner == p && !(at == 0 && FrontFits(b))
       case GiveBack => p in b.held && b.held[p] <= b.used
  }

  /** What a page asks of a budget: its bytes, or one slot. */
  function Asks(g: System, id: BudgetId, p: PageId): nat
    requires Exists(g, p)
  {
    if id.CallSlots? then 1 else g.streams[p.stream].pages[p.page].bytes
  }

  function BudgetAfter(g: System, id: BudgetId, p: PageId, m: Move, at: nat): Ledger<PageId>
    requires CanMove(g, id, p, m, at)
  {
    match m
    case ToLine => Join(g.budgets[id], p, Asks(g, id, p))
    case ToLease => Take(g.budgets[id])
    case OutOfLine => LeaveAt(g.budgets[id], at)
    case GiveBack => Release(g.budgets[id], p)
  }

  function StreamAfterMove(s: Stream, k: nat, id: BudgetId, m: Move): Stream
    requires k < |s.pages| && After(id, m, s.pages[k].phase).Some?
    requires s.pages[k].phase.FreeingStream? ==> s.pages[k].phase.worker < |s.workers|
  {
    var f, f' := s.pages[k].phase, After(id, m, s.pages[k].phase).value;
    Follow(SetPhase(s, k, f'), f, f')
  }

  function DoMove(g: System, id: BudgetId, p: PageId, m: Move, at: nat): System
    requires CanMove(g, id, p, m, at)
  {
    g.(streams := g.streams[p.stream := StreamAfterMove(g.streams[p.stream], p.page, id, m)],
       budgets := g.budgets[id := BudgetAfter(g, id, p, m, at)])
  }

  // ---- all other steps touch one stream only ------------------------------

  datatype Message = NoMore | Options | PdfChunk | NoPayload | Image(number: nat, bytes: nat, png: bool)

  /** What the read loop answers to a message it does not admit. */
  function Problem(s: Stream, m: Message): Option<Code> {
    match m
    case Options => Some(InvalidArgument)
    case PdfChunk => Some(Unimplemented)
    case Image(number, bytes, png) =>
      if number == 0 || number > 0x7FFF_FFFF then Some(InvalidArgument)
      else if bytes > s.config.maxPageBytes then Some(ResourceExhausted)
      else if !png then Some(InvalidArgument)
      else if s.started >= s.config.maxPages then Some(ResourceExhausted)
      else None
    case _ => None
  }

  datatype Answer = Document | Raw | CutShort

  datatype ReaderAct =
    | CheckLoop | Read(message: Message) | Announce | Enqueue | Settle | CloseJobs | JoinWorkers | CloseEvents
    | JoinWriter | Return(cancelled: bool)
  datatype WorkerAct = Pop | Exit | CheckHalt | Answer(answer: Answer) | Publish | Abort
  datatype WriterAct = PollClient(cancelled: bool) | PopEvent | Timeout | Write(accepted: bool) | MarkHalt

  datatype Local = ByReader(reader: ReaderAct) | ByWorker(worker: nat, act: WorkerAct) | ByWriter(writer: WriterAct)

  /** The page a worker is busy with. */
  predicate BusyWith(workers: seq<Worker>, pages: seq<Page>, w: nat, k: nat) {
    w < |workers| && workers[w] == Busy(k) && k < |pages| && WorkerOf(pages[k].phase) == Some(w)
  }

  /** A worker about to act on its page. */
  predicate Carries(s: Stream, w: nat) {
    w < |s.workers| && s.workers[w].Busy? && BusyWith(s.workers, s.pages, w, s.workers[w].page)
  }

  predicate CanReader(s: Stream, a: ReaderAct) {
    match a
    case CheckLoop => s.reader.AtLoop?
    case Read(_) => s.reader.InRead?
    case Announce => s.reader.WithPage? && |s.pages| > 0 && s.pages[|s.pages| - 1].phase.GotBothBytes?
    case Enqueue => s.reader.WithPage? && |s.pages| > 0 && s.pages[|s.pages| - 1].phase.Announced?
    case Settle => s.reader.LeftLoop?
    case CloseJobs => s.reader.Settled?
    case JoinWorkers => s.reader.JoiningWorkers? && forall w :: 0 <= w < |s.workers| ==> s.workers[w].Exited?
    case CloseEvents => s.reader.WorkersGone?
    case JoinWriter => s.reader.JoiningWriter? && s.writer.Stopped?
    case Return(_) => s.reader.WriterGone?
  }

  predicate CanWorker(s: Stream, w: nat, a: WorkerAct) {
    match a
    case Pop => w < |s.workers| && s.workers[w].Idle? && |s.jobs| > 0 && s.jobs[0] < |s.pages|
    case Exit => w < |s.workers| && s.workers[w].Idle? && s.jobsClosed && s.jobs == []
    case CheckHalt => Carries(s, w) && s.pages[s.workers[w].page].phase.Popped?
    case Answer(answer) =>
      Carries(s, w) && s.pages[s.workers[w].page].phase.Calling? && (answer.CutShort? ==> s.halt)
    case Publish => Carries(s, w) && s.pages[s.workers[w].page].phase.Answered?
    case Abort => Carries(s, w) && s.pages[s.workers[w].page].phase.Published?
  }

  predicate CanWriter(s: Stream, a: WriterAct) {
    match a
    case PollClient(_) => s.writer.Polling?
    case PopEvent => s.writer.Popping? && (|s.events| > 0 || s.eventsClosed)
    case Timeout => s.writer.Popping?
    case Write(_) => s.writer.Writing?
    case MarkHalt => s.writer.ClientGone?
  }

  predicate CanLocal(s: Stream, a: Local) {
    match a
    case ByReader(r) => CanReader(s, r)
    case ByWorker(w, x) => CanWorker(s, w, x)
    case ByWriter(x) => CanWriter(s, x)
  }

  function DoRead(s: Stream, m: Message): Stream {
    if m.NoMore? then s.(reader := LeftLoop)
    else if m.NoPayload? then s.(reader := AtLoop)
    else
      var s := s.(sawInput := s.sawInput || m.Image?);
      match Problem(s, m)
      case Some(code) => s.(reader := LeftLoop, error := Some(code), rejected := s.rejected + 1)
      case None => if m.Image? then s.(reader := WithPage, pages := s.pages + [Page(m.number, m.bytes, Validated)])
                   else s
  }

  /** The final status, in the order the source decides it. */
  function DoReturn(s: Stream, cancelled: bool): Stream {
    if s.error.Some? then s.(reader := Returned(StatusError(s.error.value)))
    else if s.clientGone || cancelled then s.(reader := Returned(StatusCancelled))
    else if !s.sawInput then s.(reader := Returned(StatusError(InvalidArgument)), rejected := s.rejected + 1)
    else if s.config.abortOnError && s.pageFailed > 0 then
      s.(reader := Returned(StatusAborted), failed := s.failed + 1)
    else s.(reader := Returned(StatusOk), converted := s.converted + 1,
            trailer := Some(Trailer(s.started, s.ok, s.pageFailed)))
  }

  function DoReader(s: Stream, a: ReaderAct): Stream
    requires CanReader(s, a)
  {
    match a
    case CheckLoop => s.(reader := if s.halt then LeftLoop else InRead)
    case Read(m) => DoRead(s, m)
    case Announce =>
      var k := |s.pages| - 1;
      Push(SetPhase(s, k, Announced), PageStarted(k, s.pages[k].number)).(started := s.started + 1)
    case Enqueue =>
      var k := |s.pages| - 1;
      SetPhase(s, k, Queued).(jobs := s.jobs + [k], reader := AtLoop)
    case Settle => s.(reader := Settled, halt := s.halt || s.error.Some?)
    case CloseJobs => s.(reader := JoiningWorkers, jobsClosed := true)
    case JoinWorkers => s.(reader := WorkersGone)
    case CloseEvents => s.(reader := JoiningWriter, eventsClosed := true)
    case JoinWriter => s.(reader := WriterGone)
    case Return(cancelled) => DoReturn(s, cancelled)
  }

  function DoWorker(s: Stream, w: nat, a: WorkerAct): Stream
    requires CanWorker(s, w, a)
  {
    match a
    case Pop => SetWorker(SetPhase(s, s.jobs[0], Popped(w)), w, Busy(s.jobs[0])).(jobs := s.jobs[1..])
    case Exit => SetWorker(s, w, Exited)
    case CheckHalt =>
      SetPhase(s, s.workers[w].page, if s.halt then FreeingProcess(w, Dropped) else Cleared(w))
    case Answer(answer) =>
      (match answer
       case Document => SetPhase(s, s.workers[w].page, Answered(w, false)).(ok := s.ok + 1)
       case Raw => SetPhase(s, s.workers[w].page, Answered(w, true)).(pageFailed := s.pageFailed + 1)
       case CutShort => SetPhase(s, s.workers[w].page, FreeingSlot(w, Dropped)))
    case Publish =>
      var k := s.workers[w].page;
      var failed := s.pages[k].phase.failed;
      Push(SetPhase(s, k, Published(w, failed)), PageAnswer(k, s.pages[k].number, failed))
    case Abort =>
      var k := s.workers[w].page;
      var failed := s.pages[k].phase.failed;
      SetPhase(s, k, FreeingSlot(w, Done(failed))).(halt := s.halt || (failed && s.config.abortOnError))
  }

  function DoWriter(s: Stream, a: WriterAct): Stream
    requires CanWriter(s, a)
  {
    match a
    case PollClient(cancelled) =>
      if cancelled then s.(writer := ClientGone, clientGone := true) else s.(writer := Popping)
    case PopEvent =>
      if |s.events| > 0 then s.(writer := Writing(s.events[0]), events := s.events[1..]) else s.(writer := Stopped)
    case Timeout => s.(writer := Polling)
    case Write(accepted) =>
      if accepted then s.(writer := Polling, wire := s.wire + [s.writer.event])
      else s.(writer := ClientGone, clientGone := true)
    case MarkHalt => s.(writer := Stopped, halt := true)
  }

  function DoLocal(s: Stream, a: Local): Stream
    requires CanLocal(s, a)
  {
    match a
    case ByReader(r) => DoReader(s, r)
    case ByWorker(w, x) => DoWorker(s, w, x)
    case ByWriter(x) => DoWriter(s, x)
  }

  // ---- runs ---------------------------------------------------------------

  datatype Step =
    | Open(config: Config)              // a call whose options were accepted
    | Reject(code: Code)                // a call refused before the pipeline starts
    | OnStream(stream: nat, local: Local)
    | OnLease(id: BudgetId, page: PageId, move: Move, at: nat)

  function NewStream(config: Config): Stream {
    Stream(config, [], AtLoop, seq(config.workers, _ => Idle), Polling, [], false, [], false, [], [],
           false, false, false, None, 0, 0, 0, None, 0, 0, 0)
  }

  function RejectedCall(code: Code): Stream {
    NewStream(Config(1, 1, 0, 0, false)).(
      reader := Returned(StatusError(code)), error := Some(code), rejected := 1, halt := true,
      workers := [Exited], writer := Stopped, jobsClosed := true, eventsClosed := true)
  }

  predicate Can(g: System, a: Step) {
    match a
    case Open(config) => config.workers >= 1
    case Reject(_) => true
    case OnStream(i, l) => i < |g.streams| && CanLocal(g.streams[i], l)
    case OnLease(id, p, m, at) => CanMove(g, id, p, m, at)
  }

  function AddStream(g: System, s: Stream): System {
    g.(streams := g.streams + [s],
       budgets := g.budgets[StreamBytes(|g.streams|) := Fresh(s.config.streamBytes)])
  }

  function Next(g: System, a: Step): System
    requires Can(g, a)
  {
    match a
    case Open(config) => AddStream(g, NewStream(config))
    case Reject(code) => AddStream(g, RejectedCall(code))
    case OnStream(i, l) => g.(streams := g.streams[i := DoLocal(g.streams[i], l)])
    case OnLease(id, p, m, at) => DoMove(g, id, p, m, at)
  }

  function Init(processBytes: nat, slots: nat): System {
    System([], map[ProcessBytes := Fresh(processBytes), CallSlots := Fresh(slots)])
  }

  ghost predicate IsRun(states: seq<System>, steps: seq<Step>) {
    && |states| == |steps| + 1
    && (exists processBytes: nat, slots: nat :: states[0] == Init(processBytes, slots))
    && forall n :: 0 <= n < |steps| ==> Can(states[n], steps[n]) && states[n + 1] == Next(states[n], steps[n])
  }
}
