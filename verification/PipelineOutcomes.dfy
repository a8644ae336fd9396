/** What a call's end tells about the run before it. The history of a call is read
    off the steps alone: which messages its reader was handed, what its workers
    answered, what its writer met. Each lasting fact of the stream holds exactly
    when the matching step was taken, so the final status is decided by the steps. */
module PipelineOutcomes {
  import opened Common
  import opened Pipeline
  import opened Ledgers
  import opened StreamInvariant
  import opened SystemInvariant
  import opened PipelineTheorems

  // ---- what a step may tell about a call ----------------------------------

  datatype Fact =
    | ClientLost                                    // the poll or a write found the client gone
    | PageShown                                     // a page image was read
    | RefusedWith(code: Code)                       // a message was refused
    | AdmittedAs(page: nat, number: nat, bytes: nat) // a page image was admitted
    | AnsweredAs(page: nat, failed: bool)           // a worker answered a page
    | HaltSet                                       // somebody raised the halt flag

  /** The status code a message earns from a call with these limits that announced
      `started` pages so far. */
  predicate Earns(config: Config, started: nat, m: Message, code: Code) {
    match code
    case Unimplemented => m.PdfChunk?
    case InvalidArgument =>
      || m.Options?
      || (m.Image? && !(1 <= m.number <= 2147483647))
      || (m.Image? && m.bytes <= config.maxPageBytes && !m.png)
    case ResourceExhausted =>
      && m.Image? && 1 <= m.number <= 2147483647
      && (m.bytes > config.maxPageBytes || (m.png && started >= config.maxPages))
    case OtherCode => false
  }

  /** A message that is read without fault. */
  predicate Fits(config: Config, started: nat, m: Message) {
    && m.Image? && 1 <= m.number <= 2147483647 && m.bytes <= config.maxPageBytes && m.png
    && started < config.maxPages
  }

  /** Step `l`, taken in state `s` of its stream, establishes the fact. */
  predicate Tells(fact: Fact, s: Stream, l: Local) {
    match fact
    case ClientLost => l == ByWriter(PollClient(true)) || l == ByWriter(Write(false))
    case PageShown => l.ByReader? && l.reader.Read? && l.reader.message.Image?
    case RefusedWith(code) => l.ByReader? && l.reader.Read? && Earns(s.config, s.started, l.reader.message, code)
    case AdmittedAs(k, number, bytes) =>
      && l == ByReader(Read(Image(number, bytes, true))) && k == |s.pages|
      && Fits(s.config, s.started, l.reader.message)
    case AnsweredAs(k, failed) =>
      && l.ByWorker? && l.worker < |s.workers| && s.workers[l.worker] == Busy(k)
      && l.act == Answer(if failed then Raw else Document)
    case HaltSet =>
      || l == ByWriter(MarkHalt)
      || (l == ByReader(Settle) && s.error.Some?)
      || (l.ByWorker? && l.act.Abort? && s.config.abortOnError && Carries(s, l.worker)
          && s.pages[s.workers[l.worker].page].phase == Published(l.worker, true))
  }

  /** The stream still shows the fact. */
  predicate Shows(s: Stream, fact: Fact) {
    match fact
    case ClientLost => s.clientGone
    case PageShown => s.sawInput
    case RefusedWith(code) => s.error == Some(code)
    case AdmittedAs(k, number, bytes) => k < |s.pages| && s.pages[k].number == number && s.pages[k].bytes == bytes
    case AnsweredAs(k, failed) => k < |s.pages| && CountedAs(s.pages[k].phase, failed)
    case HaltSet => s.halt
  }

  /** Some step among the first `n` established the fact about call `i`. */
  ghost predicate Ever(states: seq<System>, steps: seq<Step>, n: nat, i: nat, fact: Fact) {
    exists t :: 0 <= t < n && TellsAt(states, steps, t, i, fact)
  }

  ghost predicate TellsAt(states: seq<System>, steps: seq<Step>, t: nat, i: nat, fact: Fact) {
    && t < |steps| && t < |states| && i < |states[t].streams|
    && steps[t].OnStream? && steps[t].stream == i && Tells(fact, states[t].streams[i], steps[t].local)
  }

  /** Call `i` began with step `a` among the first `n`: accepted or refused at the door. */
  ghost predicate Began(states: seq<System>, steps: seq<Step>, n: nat, i: nat, a: Step) {
    exists t :: 0 <= t < n && BeganAt(states, steps, t, i, a)
  }

  ghost predicate BeganAt(states: seq<System>, steps: seq<Step>, t: nat, i: nat, a: Step) {
    t < |steps| && t < |states| && i == |states[t].streams| && steps[t] == a && (a.Open? || a.Reject?)
  }

  ghost predicate Returning(steps: seq<Step>, n: nat, i: nat, cancelled: bool) {
    exists t :: 0 <= t < n && t < |steps| && steps[t] == OnStream(i, ByReader(Return(cancelled)))
  }

  // ---- one step -----------------------------------------------------------

  /** The read loop refuses a message exactly with the code it earns. */
  lemma {:induction false} RefusedAsEarned(s: Stream, m: Message, code: Code)
    ensures Problem(s, m) == Some(code) <==> Earns(s.config, s.started, m, code)
    ensures m.Image? ==> (Problem(s, m).None? <==> Fits(s.config, s.started, m)) && (Problem(s, m).None? ==> m.png)
    ensures m.NoMore? || m.NoPayload? ==> Problem(s, m).None?
    ensures m.Options? || m.PdfChunk? ==> Problem(s, m).Some?
  {
  }

  /** What `Shows` looks at. */
  predicate Alike(s: Stream, t: Stream) {
    && s.clientGone == t.clientGone && s.sawInput == t.sawInput && s.error == t.error && s.halt == t.halt
    && |s.pages| == |t.pages|
    && forall k :: 0 <= k < |s.pages| ==> AlikePages(s.pages[k], t.pages[k])
  }

  predicate AlikePages(p: Page, q: Page) {
    && p.number == q.number && p.bytes == q.bytes
    && CountedAs(p.phase, false) == CountedAs(q.phase, false) && CountedAs(p.phase, true) == CountedAs(q.phase, true)
  }

  lemma {:induction false} AlikeShows(s: Stream, t: Stream, fact: Fact)
    requires Alike(s, t)
    ensures Shows(s, fact) <==> Shows(t, fact)
  {
    hide CountedAs;
    assert fact.AnsweredAs? && fact.page < |s.pages| ==> AlikePages(s.pages[fact.page], t.pages[fact.page]);
    assert fact.AdmittedAs? && fact.page < |s.pages| ==> AlikePages(s.pages[fact.page], t.pages[fact.page]);
  }

  predicate QuietPhases(f: Phase, f': Phase) {
    CountedAs(f, false) == CountedAs(f', false) && CountedAs(f, true) == CountedAs(f', true)
  }

  lemma {:induction false} PhaseAlike(s: Stream, t: Stream, k: nat, f: Phase)
    requires k < |s.pages| && t.pages == SetPhase(s, k, f).pages && QuietPhases(s.pages[k].phase, f)
    requires s.clientGone == t.clientGone && s.sawInput == t.sawInput && s.error == t.error && s.halt == t.halt
    ensures Alike(s, t)
  {
    hide CountedAs;
  }

  lemma {:induction false} ReadShows(s: Stream, m: Message, fact: Fact)
    requires Settles(s) && CanReader(s, Read(m))
    ensures Shows(DoReader(s, Read(m)), fact) <==> Shows(s, fact) || Tells(fact, s, ByReader(Read(m)))
  {
    hide Problem, Earns, Fits;
    RefusedAsEarned(s, m, if fact.RefusedWith? then fact.code else OtherCode);
    RefusedAsEarned(s.(sawInput := true), m, if fact.RefusedWith? then fact.code else OtherCode);
  }

  lemma {:induction false} ReaderShows(s: Stream, a: ReaderAct, fact: Fact)
    requires Settles(s) && CanReader(s, a)
    ensures Shows(DoReader(s, a), fact) <==> Shows(s, fact) || Tells(fact, s, ByReader(a))
  {
    hide Settles, Earns, Fits, DoRead, DoReturn, CountedAs, SetPhase, Shows, Alike, QuietPhases;
    if a.Read? {
      ReadShows(s, a.message, fact);
    } else if a.Settle? {
      SettleShows(s, fact);
    } else {
      ReaderIsQuiet(s, a);
      AlikeShows(s, DoReader(s, a), fact);
    }
  }

  lemma {:induction false} SettleShows(s: Stream, fact: Fact)
    requires CanReader(s, Settle)
    ensures Shows(DoReader(s, Settle), fact) <==> Shows(s, fact) || Tells(fact, s, ByReader(Settle))
  {
    hide CountedAs, Earns, Fits;
  }

  lemma {:induction false} ReaderIsQuiet(s: Stream, a: ReaderAct)
    requires CanReader(s, a) && !a.Read? && !a.Settle?
    ensures Alike(s, DoReader(s, a))
  {
    hide CountedAs, Alike, QuietPhases, DoRead;
    if a.Announce? {
      QueueQuietly();
      PhaseAlike(s, DoReader(s, a), |s.pages| - 1, Announced);
    } else if a.Enqueue? {
      QueueQuietly();
      PhaseAlike(s, DoReader(s, a), |s.pages| - 1, Queued);
    } else {
      SamePagesAlike(s, DoReader(s, a));
    }
  }

  lemma {:induction false} SamePagesAlike(s: Stream, t: Stream)
    requires s.pages == t.pages
    requires s.clientGone == t.clientGone && s.sawInput == t.sawInput && s.error == t.error && s.halt == t.halt
    ensures Alike(s, t)
  {
    hide CountedAs;
  }

  lemma {:induction false} QueueQuietly()
    ensures QuietPhases(GotBothBytes, Announced) && QuietPhases(Announced, Queued)
  {
  }

  lemma {:induction false} WorkerShows(s: Stream, w: nat, a: WorkerAct, fact: Fact)
    requires JobsLinked(s.jobs, s.pages) && CanWorker(s, w, a)
    ensures Shows(DoWorker(s, w, a), fact) <==> Shows(s, fact) || Tells(fact, s, ByWorker(w, a))
  {
    hide JobsLinked, Earns, Fits, DoWorker, CanWorker, CountedAs, Shows, Alike;
    if a.Answer? {
      AnswerShows(s, w, a.answer, fact);
    } else if a.Abort? {
      AbortShows(s, w, fact);
    } else {
      WorkerIsQuiet(s, w, a);
      AlikeShows(s, DoWorker(s, w, a), fact);
    }
  }

  lemma {:induction false} WorkerIsQuiet(s: Stream, w: nat, a: WorkerAct)
    requires JobsLinked(s.jobs, s.pages) && CanWorker(s, w, a) && !a.Answer? && !a.Abort?
    ensures Alike(s, DoWorker(s, w, a))
  {
    hide CountedAs, Alike, QuietPhases;
    match a
    case Pop =>
      PopQuietly(w);
      PhaseAlike(s, DoWorker(s, w, a), s.jobs[0], Popped(w));
    case Exit => SamePagesAlike(s, DoWorker(s, w, a));
    case CheckHalt =>
      PopQuietly(w);
      PhaseAlike(s, DoWorker(s, w, a), s.workers[w].page, if s.halt then FreeingProcess(w, Dropped) else Cleared(w));
    case Publish =>
      var k := s.workers[w].page;
      PublishQuietly(w, s.pages[k].phase.failed);
      PhaseAlike(s, DoWorker(s, w, a), k, Published(w, s.pages[k].phase.failed));
  }

  lemma {:induction false} PopQuietly(w: nat)
    ensures QuietPhases(Queued, Popped(w)) && QuietPhases(Popped(w), Cleared(w))
    ensures QuietPhases(Popped(w), FreeingProcess(w, Dropped))
  {
  }

  lemma {:induction false} PublishQuietly(w: nat, failed: bool)
    ensures QuietPhases(Answered(w, failed), Published(w, failed))
    ensures QuietPhases(Published(w, failed), FreeingSlot(w, Done(failed)))
  {
  }

  /** A new phase changes what is shown about that one page only. */
  lemma {:induction false} PhaseShows(s: Stream, t: Stream, k: nat, f: Phase, fact: Fact)
    requires k < |s.pages| && t.pages == SetPhase(s, k, f).pages
    requires s.clientGone == t.clientGone && s.sawInput == t.sawInput && s.error == t.error && s.halt == t.halt
    ensures Shows(t, fact) <==>
              if fact.AnsweredAs? && fact.page == k then CountedAs(f, fact.failed) else Shows(s, fact)
  {
    hide CountedAs;
  }

  lemma {:induction false} AnswerShows(s: Stream, w: nat, answer: Answer, fact: Fact)
    requires CanWorker(s, w, Answer(answer))
    ensures Shows(DoWorker(s, w, Answer(answer)), fact) <==>
            Shows(s, fact) || Tells(fact, s, ByWorker(w, Answer(answer)))
  {
    hide CountedAs, Earns, Fits;
    var k, t := s.workers[w].page, DoWorker(s, w, Answer(answer));
    CallingCounts(w, if fact.AnsweredAs? then fact.failed else false);
    PhaseShows(s, t, k, t.pages[k].phase, fact);
  }

  lemma {:induction false} CallingCounts(w: nat, failed: bool)
    ensures !CountedAs(Calling(w), failed) && !CountedAs(FreeingSlot(w, Dropped), failed)
    ensures CountedAs(Answered(w, true), failed) == failed && CountedAs(Answered(w, false), failed) == !failed
  {
  }

  lemma {:induction false} AbortShows(s: Stream, w: nat, fact: Fact)
    requires CanWorker(s, w, Abort)
    ensures Shows(DoWorker(s, w, Abort), fact) <==> Shows(s, fact) || Tells(fact, s, ByWorker(w, Abort))
  {
    hide CountedAs, Earns, Fits, Shows, Alike, QuietPhases;
    var k, t := s.workers[w].page, DoWorker(s, w, Abort);
    PublishQuietly(w, s.pages[k].phase.failed);
    PhaseAlike(s, t.(halt := s.halt), k, t.pages[k].phase);
    AlikeShows(s, t.(halt := s.halt), fact);
    HaltShows(t, s.halt, fact);
  }

  lemma {:induction false} HaltShows(t: Stream, halt: bool, fact: Fact)
    ensures Shows(t, fact) <==> if fact.HaltSet? then t.halt else Shows(t.(halt := halt), fact)
    ensures Shows(t.(halt := halt), HaltSet) <==> halt
  {
    hide CountedAs;
  }

  lemma {:induction false} WriterLeavesPages(s: Stream, a: WriterAct)
    requires CanWriter(s, a)
    ensures DoWriter(s, a).pages == s.pages
  {
  }

  lemma {:induction false} WriterLeavesInput(s: Stream, a: WriterAct)
    requires CanWriter(s, a)
    ensures DoWriter(s, a).sawInput == s.sawInput && DoWriter(s, a).error == s.error
  {
  }

  lemma {:induction false} WriterRaises(s: Stream, a: WriterAct)
    requires CanWriter(s, a)
    ensures DoWriter(s, a).clientGone <==> s.clientGone || a == PollClient(true) || a == Write(false)
    ensures DoWriter(s, a).halt <==> s.halt || a.MarkHalt?
  {
  }

  lemma {:induction false} WriterShows(s: Stream, a: WriterAct, fact: Fact)
    requires CanWriter(s, a)
    ensures Shows(DoWriter(s, a), fact) <==> Shows(s, fact) || Tells(fact, s, ByWriter(a))
  {
    hide CountedAs, Earns, Fits, DoWriter, CanWriter;
    WriterLeavesPages(s, a);
    WriterLeavesInput(s, a);
    WriterRaises(s, a);
  }

  lemma {:induction false} LocalShows(s: Stream, l: Local, fact: Fact)
    requires StreamInv(s) && CanLocal(s, l)
    ensures Shows(DoLocal(s, l), fact) <==> Shows(s, fact) || Tells(fact, s, l)
  {
    hide WorkersLinked, ReaderLinked, JobsLinked, LogLinked, WireLinked, Counted, Halts, Excused, Closing, Settles;
    hide DoReader, DoWorker, DoWriter, CanReader, CanWorker, CanWriter, Shows, Tells;
    match l
    case ByReader(a) => ReaderShows(s, a, fact);
    case ByWorker(w, a) => WorkerShows(s, w, a, fact);
    case ByWriter(a) => WriterShows(s, a, fact);
  }

  lemma {:induction false} MoveShows(s: Stream, k: nat, id: BudgetId, m: Move, fact: Fact)
    requires k < |s.pages| && After(id, m, s.pages[k].phase).Some?
    requires s.pages[k].phase.FreeingStream? ==> s.pages[k].phase.worker < |s.workers|
    ensures Shows(StreamAfterMove(s, k, id, m), fact) <==> Shows(s, fact)
  {
    hide CountedAs, Shows, After, Alike, QuietPhases;
    MoveIsQuiet(id, m, s.pages[k].phase);
    PhaseAlike(s, StreamAfterMove(s, k, id, m), k, After(id, m, s.pages[k].phase).value);
    AlikeShows(s, StreamAfterMove(s, k, id, m), fact);
  }

  lemma {:induction false} MoveIsQuiet(id: BudgetId, m: Move, f: Phase)
    requires After(id, m, f).Some?
    ensures QuietPhases(f, After(id, m, f).value)
  {
  }

  lemma {:induction false} StepShows(g: System, a: Step, i: nat, fact: Fact)
    requires SysInv(g) && Can(g, a) && i < |g.streams|
    ensures i < |Next(g, a).streams|
    ensures Shows(Next(g, a).streams[i], fact) <==>
              Shows(g.streams[i], fact) || (a.OnStream? && a.stream == i && Tells(fact, g.streams[i], a.local))
  {
    hide StreamInv, DoLocal, CanLocal, Shows, Tells, StreamAfterMove, Tracks, BudgetAfter, After;
    if a.OnStream? && a.stream == i {
      LocalShows(g.streams[i], a.local, fact);
    }
    if a.OnLease? && a.page.stream == i {
      MoveShows(g.streams[i], a.page.page, a.id, a.move, fact);
    }
  }

  lemma {:induction false} NewShows(a: Step, fact: Fact)
    ensures a.Open? ==> !Shows(NewStream(a.config), fact)
    ensures a.Reject? ==>
              (Shows(RejectedCall(a.code), fact) <==> fact == RefusedWith(a.code) || fact == HaltSet)
  {
  }

  // ---- histories ----------------------------------------------------------

  lemma {:induction false} EverGrows(states: seq<System>, steps: seq<Step>, n: nat, i: nat, fact: Fact)
    ensures Ever(states, steps, n + 1, i, fact) <==>
              Ever(states, steps, n, i, fact) || TellsAt(states, steps, n, i, fact)
  {
    hide TellsAt;
  }

  lemma {:induction false} BeganGrows(states: seq<System>, steps: seq<Step>, n: nat, i: nat, a: Step)
    ensures Began(states, steps, n + 1, i, a) <==> Began(states, steps, n, i, a) || BeganAt(states, steps, n, i, a)
  {
    hide BeganAt;
  }

  lemma {:induction false} ReturningGrows(steps: seq<Step>, n: nat, i: nat, c: bool)
    requires n < |steps|
    ensures Returning(steps, n + 1, i, c) <==>
              Returning(steps, n, i, c) || steps[n] == OnStream(i, ByReader(Return(c)))
  {
  }

  lemma {:induction false} RunStep(states: seq<System>, steps: seq<Step>, t: nat)
    requires IsRun(states, steps) && t < |steps|
    ensures |states| == |steps| + 1 && Can(states[t], steps[t]) && states[t + 1] == Next(states[t], steps[t])
  {
  }

  lemma {:induction false} Grows(states: seq<System>, steps: seq<Step>, m: nat, n: nat, i: nat)
    requires IsRun(states, steps) && m <= n < |states| && i < |states[m].streams|
    ensures i < |states[n].streams|
  {
    HaltSticks(states, steps, m, n, i);
  }

  lemma {:induction false} BornHere(g: System, a: Step)
    requires Can(g, a)
    ensures |Next(g, a).streams| == |g.streams| + if a.Open? || a.Reject? then 1 else 0
    ensures a.Open? ==> Next(g, a).streams[|g.streams|] == NewStream(a.config)
    ensures a.Reject? ==> Next(g, a).streams[|g.streams|] == RejectedCall(a.code)
    ensures a.OnStream? ==> a.stream < |g.streams|
  {
    hide DoLocal, CanLocal, StreamAfterMove, BudgetAfter, After, NewStream, RejectedCall;
  }

  /** Nothing happens on a call before it began. */
  lemma {:induction false} NothingYet(states: seq<System>, steps: seq<Step>, n: nat, i: nat)
    requires IsRun(states, steps) && n < |states| && i >= |states[n].streams|
    ensures forall fact :: !Ever(states, steps, n, i, fact)
    ensures forall a :: !Began(states, steps, n, i, a)
    ensures forall c :: !Returning(steps, n, i, c)
  {
    hide IsRun, Can, Next, Tells;
    RunLength(states, steps);
    forall a ensures !Began(states, steps, n, i, a) {
      if t :| 0 <= t < n && BeganAt(states, steps, t, i, a) {
        NotBefore(states, steps, t, n, i);
      }
    }
    forall fact ensures !Ever(states, steps, n, i, fact) {
      if t :| 0 <= t < n && TellsAt(states, steps, t, i, fact) {
        NotBefore(states, steps, t, n, i);
      }
    }
    forall c ensures !Returning(steps, n, i, c) {
      if t :| 0 <= t < n && t < |steps| && steps[t] == OnStream(i, ByReader(Return(c))) {
        NotBefore(states, steps, t, n, i);
      }
    }
  }

  lemma {:induction false} NotBefore(states: seq<System>, steps: seq<Step>, t: nat, n: nat, i: nat)
    requires IsRun(states, steps) && t < n < |states| && i >= |states[n].streams|
    ensures |states| == |steps| + 1 && i >= |states[t].streams| && (steps[t].OnStream? ==> steps[t].stream != i)
    ensures i == |states[t].streams| ==> !steps[t].Open? && !steps[t].Reject?
  {
    hide IsRun, Can, Next;
    RunLength(states, steps);
    RunStep(states, steps, t);
    BornHere(states[t], steps[t]);
    if i < |states[t].streams| {
      Grows(states, steps, t, n, i);
    }
    if i < |states[t + 1].streams| {
      Grows(states, steps, t + 1, n, i);
    }
  }

  lemma {:induction false} RunLength(states: seq<System>, steps: seq<Step>)
    requires IsRun(states, steps)
    ensures |states| == |steps| + 1 && states[0].streams == []
  {
  }

  /** A fact that holds from the first moment of a call refused at the door. */
  ghost predicate AtTheDoor(states: seq<System>, steps: seq<Step>, n: nat, i: nat, fact: Fact) {
    match fact
    case RefusedWith(code) => Began(states, steps, n, i, Reject(code))
    case HaltSet => exists code :: Began(states, steps, n, i, Reject(code))
    case _ => false
  }

  lemma {:induction false} DoorGrows(states: seq<System>, steps: seq<Step>, n: nat, i: nat, fact: Fact)
    requires n < |steps| && n < |states| && i != |states[n].streams|
    ensures AtTheDoor(states, steps, n + 1, i, fact) <==> AtTheDoor(states, steps, n, i, fact)
  {
    forall a: Step ensures Began(states, steps, n + 1, i, a) <==> Began(states, steps, n, i, a) {
      BeganGrows(states, steps, n, i, a);
    }
  }

  lemma {:induction false} DoorOpens(states: seq<System>, steps: seq<Step>, n: nat, i: nat, fact: Fact)
    requires n < |steps| && n < |states| && i == |states[n].streams| && (steps[n].Open? || steps[n].Reject?)
    requires forall a :: !Began(states, steps, n, i, a)
    ensures AtTheDoor(states, steps, n + 1, i, fact) <==>
              steps[n].Reject? && (fact == RefusedWith(steps[n].code) || fact == HaltSet)
  {
    var after := n + 1;
    forall a: Step ensures Began(states, steps, after, i, a) <==> a == steps[n] {
      BeganGrows(states, steps, n, i, a);
    }
  }

  /** Over every run: a call shows a fact exactly when one of its steps told it, or
      when the call was refused with it before it began. */
  lemma {:induction false} HistoryShows(states: seq<System>, steps: seq<Step>, n: nat, i: nat, fact: Fact)
    requires IsRun(states, steps) && n < |states| && i < |states[n].streams|
    ensures Shows(states[n].streams[i], fact) <==>
              Ever(states, steps, n, i, fact) || AtTheDoor(states, steps, n, i, fact)
    decreases n
  {
    hide IsRun, SysInv, Can, Next, Ever, Shows, Tells, AtTheDoor;
    RunLength(states, steps);
    var m := n - 1;
    RunStep(states, steps, m);
    BornHere(states[m], steps[m]);
    EverGrows(states, steps, m, i, fact);
    if i < |states[m].streams| {
      EveryRunKeeps(states, steps, m);
      HistoryShows(states, steps, m, i, fact);
      StepShows(states[m], steps[m], i, fact);
      DoorGrows(states, steps, m, i, fact);
    } else {
      NothingYet(states, steps, m, i);
      DoorOpens(states, steps, m, i, fact);
      NewShows(steps[m], fact);
    }
  }

  // ---- the end of a call ---------------------------------------------------

  lemma {:induction false} ReturnedActsNoMore(s: Stream, l: Local)
    requires StreamInv(s) && s.reader.Returned?
    ensures !CanLocal(s, l)
  {
    hide WorkersLinked, ReaderLinked, JobsLinked, LogLinked, WireLinked, Counted, Halts, Excused, Settles;
  }

  lemma {:induction false} GoneMovesNoMore(id: BudgetId, m: Move, f: Phase)
    requires Gone(f)
    ensures After(id, m, f).None?
  {
  }

  /** A returned call changes no more. */
  lemma {:induction false} ReturnedStays(g: System, a: Step, i: nat)
    requires SysInv(g) && Can(g, a) && i < |g.streams| && g.streams[i].reader.Returned?
    ensures i < |Next(g, a).streams| && Next(g, a).streams[i] == g.streams[i]
    ensures a.OnStream? ==> a.stream != i
  {
    hide StreamInv, DoLocal, CanLocal, Tracks, BudgetAfter, After, StreamAfterMove, Gone;
    if a.OnStream? && a.stream == i {
      ReturnedActsNoMore(g.streams[i], a.local);
    }
    if a.OnLease? && a.page.stream == i {
      ReturnedLeavesNoPage(g.streams[i], a.page.page);
      GoneMovesNoMore(a.id, a.move, PhaseOf(g, a.page));
    }
  }

  lemma {:induction false} ReadGoesOn(s: Stream, m: Message)
    requires s.reader.InRead?
    ensures !DoRead(s, m).reader.Returned?
  {
    hide Problem;
  }

  lemma {:induction false} ReaderReturns(s: Stream, a: ReaderAct)
    requires CanReader(s, a) && !s.reader.Returned?
    ensures DoReader(s, a).reader.Returned? <==> a.Return?
  {
    hide DoRead, DoReturn;
    if a.Read? {
      ReadGoesOn(s, a.message);
    }
    if a.Return? {
      ReturnDecides(s, a.cancelled);
    }
  }

  lemma {:induction false} AnswerLeavesReader(s: Stream, w: nat, answer: Answer)
    requires CanWorker(s, w, Answer(answer))
    ensures var t := DoWorker(s, w, Answer(answer)); t.reader == s.reader && t.config == s.config
  {
  }

  lemma {:induction false} PopLeavesReader(s: Stream, w: nat, a: WorkerAct)
    requires CanWorker(s, w, a) && (a.Pop? || a.Exit?)
    ensures var t := DoWorker(s, w, a); t.reader == s.reader && t.config == s.config
  {
  }

  lemma {:induction false} CarryLeavesReader(s: Stream, w: nat, a: WorkerAct)
    requires CanWorker(s, w, a) && (a.CheckHalt? || a.Publish? || a.Abort?)
    ensures var t := DoWorker(s, w, a); t.reader == s.reader && t.config == s.config
  {
  }

  lemma {:induction false} WorkerLeavesReader(s: Stream, w: nat, a: WorkerAct)
    requires CanWorker(s, w, a)
    ensures var t := DoWorker(s, w, a); t.reader == s.reader && t.config == s.config
  {
    hide CanWorker, DoWorker;
    match a
    case Answer(answer) => AnswerLeavesReader(s, w, answer);
    case Pop => PopLeavesReader(s, w, a);
    case Exit => PopLeavesReader(s, w, a);
    case _ => CarryLeavesReader(s, w, a);
  }

  lemma {:induction false} WriterLeavesReader(s: Stream, a: WriterAct)
    requires CanWriter(s, a)
    ensures var t := DoWriter(s, a); t.reader == s.reader && t.config == s.config
  {
  }

  lemma {:induction false} OnlyReturnReturns(s: Stream, l: Local)
    requires CanLocal(s, l) && !s.reader.Returned?
    ensures DoLocal(s, l).reader.Returned? <==> l.ByReader? && l.reader.Return?
  {
    hide DoReader, DoWorker, DoWriter, CanReader, CanWorker, CanWriter;
    match l
    case ByReader(a) => ReaderReturns(s, a);
    case ByWorker(w, a) => WorkerLeavesReader(s, w, a);
    case ByWriter(a) => WriterLeavesReader(s, a);
  }

  lemma {:induction false} StepReturns(g: System, a: Step, i: nat)
    requires Can(g, a) && i < |g.streams| && !g.streams[i].reader.Returned?
    ensures i < |Next(g, a).streams|
    ensures Next(g, a).streams[i].reader.Returned? <==>
              a == OnStream(i, ByReader(Return(true))) || a == OnStream(i, ByReader(Return(false)))
    ensures forall c :: a == OnStream(i, ByReader(Return(c))) ==>
              Next(g, a).streams[i] == DoReturn(g.streams[i], c)
  {
    hide After, BudgetAfter, CanLocal, DoReturn, DoWorker, DoWriter;
    if a.OnStream? && a.stream == i {
      OnlyReturnReturns(g.streams[i], a.local);
    }
  }

  /** The status of a returned call, told by what its stream shows. */
  ghost predicate Verdict(s: Stream, cancelled: bool)
    requires s.reader.Returned?
  {
    var status, refused, gone := s.reader.status, s.error.Some?, s.clientGone || cancelled;
    var aborted := s.config.abortOnError && s.pageFailed > 0;
    && (status == StatusOk <==> !refused && !gone && s.sawInput && !aborted)
    && (status == StatusAborted <==> !refused && !gone && s.sawInput && aborted)
    && (status == StatusCancelled <==> !refused && gone)
    && (forall code :: status == StatusError(code) <==>
          s.error == Some(code) || (code == InvalidArgument && !refused && !gone && !s.sawInput))
  }

  lemma {:induction false} ReturnDecides(s: Stream, cancelled: bool)
    ensures DoReturn(s, cancelled).reader.Returned? && Verdict(DoReturn(s, cancelled), cancelled)
  {
  }

  lemma {:induction false} RejectDecides(code: Code)
    ensures RejectedCall(code).reader.Returned? && Verdict(RejectedCall(code), false)
    ensures !RejectedCall(code).config.abortOnError
  {
  }

  ghost predicate Ended(states: seq<System>, steps: seq<Step>, n: nat, i: nat)
    requires n < |states| && i < |states[n].streams|
  {
    var s, yes, no := states[n].streams[i], Returning(steps, n, i, true), Returning(steps, n, i, false);
    && !(yes && no)
    && (s.reader.Returned? <==> yes || no || exists code :: Began(states, steps, n, i, Reject(code)))
    && (s.reader.Returned? ==> Verdict(s, yes))
  }

  lemma {:induction false} EndFollows(states: seq<System>, steps: seq<Step>, n: nat, i: nat)
    requires IsRun(states, steps) && n < |states| && i < |states[n].streams|
    ensures Ended(states, steps, n, i)
    decreases n
  {
    hide IsRun, SysInv, Can, Next, Returning, Verdict, Began, NewStream, RejectedCall;
    RunLength(states, steps);
    var m := n - 1;
    RunStep(states, steps, m);
    BornHere(states[m], steps[m]);
    ReturningGrows(steps, m, i, true);
    ReturningGrows(steps, m, i, false);
    if i < |states[m].streams| {
      EveryRunKeeps(states, steps, m);
      EndFollows(states, steps, m, i);
      DoorGrows(states, steps, m, i, HaltSet);
      if states[m].streams[i].reader.Returned? {
        ReturnedStays(states[m], steps[m], i);
      } else {
        StepReturns(states[m], steps[m], i);
        ReturnDecides(states[m].streams[i], steps[m] == OnStream(i, ByReader(Return(true))));
      }
    } else {
      NothingYet(states, steps, m, i);
      DoorOpens(states, steps, m, i, HaltSet);
      NewStreamReads();
      forall code ensures RejectedCall(code).reader.Returned? && Verdict(RejectedCall(code), false) {
        RejectDecides(code);
      }
    }
  }

  lemma {:induction false} NewStreamReads()
    ensures forall config :: !NewStream(config).reader.Returned?
  {
  }

  // ---- the limits a call works under --------------------------------------

  lemma {:induction false} ReadKeepsConfig(s: Stream, m: Message)
    ensures DoRead(s, m).config == s.config
  {
    hide Problem;
  }

  lemma {:induction false} ReturnKeepsConfig(s: Stream, cancelled: bool)
    ensures DoReturn(s, cancelled).config == s.config
  {
  }

  lemma {:induction false} ReaderKeepsConfig(s: Stream, a: ReaderAct)
    requires CanReader(s, a)
    ensures DoReader(s, a).config == s.config
  {
    hide DoRead, DoReturn;
    if a.Read? {
      ReadKeepsConfig(s, a.message);
    }
    if a.Return? {
      ReturnKeepsConfig(s, a.cancelled);
    }
  }

  lemma {:induction false} LocalKeepsConfig(s: Stream, l: Local)
    requires CanLocal(s, l)
    ensures DoLocal(s, l).config == s.config
  {
    hide DoReader, DoWorker, DoWriter, CanReader, CanWorker, CanWriter;
    match l
    case ByReader(a) => ReaderKeepsConfig(s, a);
    case ByWorker(w, a) => WorkerLeavesReader(s, w, a);
    case ByWriter(a) => WriterLeavesReader(s, a);
  }

  lemma {:induction false} StepKeepsConfig(g: System, a: Step, i: nat)
    requires Can(g, a) && i < |g.streams|
    ensures i < |Next(g, a).streams| && Next(g, a).streams[i].config == g.streams[i].config
  {
    hide DoLocal, CanLocal, BudgetAfter;
    if a.OnStream? && a.stream == i {
      LocalKeepsConfig(g.streams[i], a.local);
    }
  }

  /** An accepted call works under the options it was opened with to its end. */
  lemma {:induction false} OptionsAreKept(states: seq<System>, steps: seq<Step>, n: nat, i: nat, config: Config)
    requires IsRun(states, steps) && n < |states| && i < |states[n].streams|
    requires Began(states, steps, n, i, Open(config))
    ensures states[n].streams[i].config == config
    decreases n
  {
    hide IsRun, Can, Next, Began, NewStream, RejectedCall;
    RunLength(states, steps);
    var m := n - 1;
    RunStep(states, steps, m);
    BornHere(states[m], steps[m]);
    BeganGrows(states, steps, m, i, Open(config));
    if i < |states[m].streams| {
      OptionsAreKept(states, steps, m, i, config);
      StepKeepsConfig(states[m], steps[m], i);
    } else {
      NothingYet(states, steps, m, i);
      NewConfig(config);
    }
  }

  lemma {:induction false} NewConfig(config: Config)
    ensures NewStream(config).config == config
  {
  }

  function Capacity(requested: nat): nat {
    if requested == 0 then 1 else requested
  }

  /** Each call's byte budget has the size its options ask for, at least one byte, and
      the shared budgets have the sizes the process started with. */
  ghost predicate Sized(g: System, processBytes: nat, slots: nat) {
    && ProcessBytes in g.budgets && g.budgets[ProcessBytes].capacity == Capacity(processBytes)
    && CallSlots in g.budgets && g.budgets[CallSlots].capacity == Capacity(slots)
    && forall i :: 0 <= i < |g.streams| ==> SizedCall(g, i)
  }

  ghost predicate SizedCall(g: System, i: nat)
    requires i < |g.streams|
  {
    StreamBytes(i) in g.budgets && g.budgets[StreamBytes(i)].capacity == Capacity(g.streams[i].config.streamBytes)
  }

  lemma {:induction false} MoveKeepsCapacity(g: System, id: BudgetId, p: PageId, m: Move, at: nat)
    requires CanMove(g, id, p, m, at)
    ensures BudgetAfter(g, id, p, m, at).capacity == g.budgets[id].capacity
  {
    hide After;
  }

  lemma {:induction false} StepKeepsCapacity(g: System, a: Step, id: BudgetId)
    requires Can(g, a) && id in g.budgets && id != StreamBytes(|g.streams|)
    ensures id in Next(g, a).budgets && Next(g, a).budgets[id].capacity == g.budgets[id].capacity
  {
    hide DoLocal, CanLocal, BudgetAfter, StreamAfterMove, After;
    if a.OnLease? {
      MoveKeepsCapacity(g, a.id, a.page, a.move, a.at);
    }
  }

  lemma {:induction false} NewCallIsSized(g: System, a: Step)
    requires Can(g, a) && (a.Open? || a.Reject?)
    ensures |Next(g, a).streams| == |g.streams| + 1 && SizedCall(Next(g, a), |g.streams|)
  {
  }

  lemma {:induction false} StepSized(g: System, a: Step, processBytes: nat, slots: nat)
    requires Can(g, a) && Sized(g, processBytes, slots)
    ensures Sized(Next(g, a), processBytes, slots)
  {
    hide Can, Next, SizedCall;
    StepKeepsCapacity(g, a, ProcessBytes);
    StepKeepsCapacity(g, a, CallSlots);
    BornHere(g, a);
    forall i | 0 <= i < |Next(g, a).streams| ensures SizedCall(Next(g, a), i) {
      if i < |g.streams| {
        SizedCallKept(g, a, i);
      } else {
        NewCallIsSized(g, a);
      }
    }
  }

  lemma {:induction false} SizedCallKept(g: System, a: Step, i: nat)
    requires Can(g, a) && i < |g.streams| && SizedCall(g, i)
    ensures i < |Next(g, a).streams| && SizedCall(Next(g, a), i)
  {
    hide Can, Next;
    StepKeepsCapacity(g, a, StreamBytes(i));
    StepKeepsConfig(g, a, i);
  }

  /** Over every run, budgets have the sizes they were configured with. */
  lemma {:induction false} CapacitiesAreConfigured(states: seq<System>, steps: seq<Step>, n: nat, processBytes: nat,
                                                   slots: nat)
    requires IsRun(states, steps) && n < |states| && states[0] == Init(processBytes, slots)
    ensures Sized(states[n], processBytes, slots)
    decreases n
  {
    if n > 0 {
      hide IsRun, Can, Next, Sized, Init;
      CapacitiesAreConfigured(states, steps, n - 1, processBytes, slots);
      RunLength(states, steps);
      RunStep(states, steps, n - 1);
      StepSized(states[n - 1], steps[n - 1], processBytes, slots);
    }
  }

  // ---- the status of a call ------------------------------------------------

  lemma {:induction false} TallyWitness(pages: seq<Page>, t: Tallied)
    ensures Tally(pages, t) > 0 <==> exists k :: 0 <= k < |pages| && Counts(t, pages[k].phase)
  {
    if pages != [] {
      var rest := pages[..|pages| - 1];
      TallyWitness(rest, t);
      if k :| 0 <= k < |pages| && Counts(t, pages[k].phase) {
        if k < |pages| - 1 {
          assert rest[k] == pages[k];
        }
      }
    }
  }

  /** Call `i` was refused with this code, at the door or for a message it sent. */
  ghost predicate WasRefused(states: seq<System>, steps: seq<Step>, n: nat, i: nat, code: Code) {
    Ever(states, steps, n, i, RefusedWith(code)) || Began(states, steps, n, i, Reject(code))
  }

  /** A worker got a raw answer for some page. */
  ghost predicate PageFailed(states: seq<System>, steps: seq<Step>, n: nat, i: nat) {
    exists k :: Ever(states, steps, n, i, AnsweredAs(k, true))
  }

  lemma {:induction false} RefusalShows(states: seq<System>, steps: seq<Step>, n: nat, i: nat)
    requires IsRun(states, steps) && n < |states| && i < |states[n].streams|
    ensures forall code :: states[n].streams[i].error == Some(code) <==> WasRefused(states, steps, n, i, code)
  {
    hide IsRun, Ever, Began;
    forall code ensures states[n].streams[i].error == Some(code) <==> WasRefused(states, steps, n, i, code) {
      HistoryShows(states, steps, n, i, RefusedWith(code));
    }
  }

  lemma {:induction false} FailureShows(states: seq<System>, steps: seq<Step>, n: nat, i: nat)
    requires IsRun(states, steps) && n < |states| && i < |states[n].streams|
    ensures states[n].streams[i].pageFailed > 0 <==> PageFailed(states, steps, n, i)
  {
    hide IsRun, Ever, Tally, CountedAs, SysInv;
    var s := states[n].streams[i];
    EveryRunKeeps(states, steps, n);
    CountsAgree(states[n], i);
    TallyWitness(s.pages, TFailed);
    forall k: nat ensures Ever(states, steps, n, i, AnsweredAs(k, true)) <==> Shows(s, AnsweredAs(k, true)) {
      HistoryShows(states, steps, n, i, AnsweredAs(k, true));
    }
    if k :| 0 <= k < |s.pages| && Counts(TFailed, s.pages[k].phase) {
      assert Shows(s, AnsweredAs(k, true));
    }
    if k: nat :| Ever(states, steps, n, i, AnsweredAs(k, true)) {
      assert Shows(s, AnsweredAs(k, true));
      assert Counts(TFailed, s.pages[k].phase);
    }
  }

  lemma {:induction false} CountsAgree(g: System, i: nat)
    requires SysInv(g) && i < |g.streams|
    ensures StreamInv(g.streams[i]) && g.streams[i].pageFailed == Tally(g.streams[i].pages, TFailed)
  {
    hide WorkersLinked, ReaderLinked, JobsLinked, LogLinked, WireLinked, Halts, Excused, Closing, Settles, Tally;
  }

  /** Over every run, how a call ends is decided by what happened to it:
      OK exactly when nothing was refused, the client stayed, a page was sent and no
      page failed under `abort_on_error`; an error exactly with the code of what was
      refused, or INVALID_ARGUMENT when the client stayed and sent no page; CANCELLED
      exactly when nothing was refused and the client was lost or had cancelled;
      ABORTED exactly when only a failed page under `abort_on_error` stands against OK. */
  lemma {:induction false} StatusIsDecided(states: seq<System>, steps: seq<Step>, n: nat, i: nat)
    requires IsRun(states, steps) && n < |states| && i < |states[n].streams|
    requires states[n].streams[i].reader.Returned?
    ensures var s := states[n].streams[i];
            var status, clean := s.reader.status, forall code :: !WasRefused(states, steps, n, i, code);
            var gone := Ever(states, steps, n, i, ClientLost) || Returning(steps, n, i, true);
            var sent := Ever(states, steps, n, i, PageShown);
            var aborted := s.config.abortOnError && PageFailed(states, steps, n, i);
            && (status == StatusOk <==> clean && !gone && sent && !aborted)
            && (status == StatusAborted <==> clean && !gone && sent && aborted)
            && (status == StatusCancelled <==> clean && gone)
            && (forall code :: status == StatusError(code) <==>
                  WasRefused(states, steps, n, i, code) || (code == InvalidArgument && clean && !gone && !sent))
  {
    hide IsRun, Ever, Began, Returning, WasRefused, PageFailed;
    EndFollows(states, steps, n, i);
    RefusalShows(states, steps, n, i);
    FailureShows(states, steps, n, i);
    HistoryShows(states, steps, n, i, ClientLost);
    HistoryShows(states, steps, n, i, PageShown);
    var s := states[n].streams[i];
    assert s.error.Some? <==> exists code :: WasRefused(states, steps, n, i, code) by {
      assert s.error.Some? ==> WasRefused(states, steps, n, i, s.error.value);
    }
  }

  /** A call returns once: by one Return step, or at once when refused at the door. */
  lemma {:induction false} ReturnsOnce(states: seq<System>, steps: seq<Step>, n: nat, i: nat)
    requires IsRun(states, steps) && n < |states| && i < |states[n].streams|
    ensures states[n].streams[i].reader.Returned? <==>
              || Returning(steps, n, i, true) || Returning(steps, n, i, false)
              || exists code :: Began(states, steps, n, i, Reject(code))
    ensures !(Returning(steps, n, i, true) && Returning(steps, n, i, false))
  {
    hide IsRun, Began, Returning, Verdict;
    EndFollows(states, steps, n, i);
  }

  // ---- what is delivered ---------------------------------------------------

  lemma {:induction false} WireFits(s: Stream, e: Event)
    requires StreamInv(s) && e in s.wire
    ensures e.page < |s.pages| && e.number == s.pages[e.page].number
    ensures e.PageAnswer? ==> CountedAs(s.pages[e.page].phase, e.failed)
  {
    hide WorkersLinked, ReaderLinked, JobsLinked, Counted, Halts, Excused, Closing, Settles, IsAnnounced, PublishedAs;
    var j :| 0 <= j < |s.wire| && s.wire[j] == e;
    assert EventFits(s.pages, s.log[j]);
  }

  /** Over every run, whatever the client was handed is genuine: an event names a page
      image the reader admitted, with the number it was sent under, and an answer is of
      the kind a worker got for that page. */
  lemma {:induction false} EventsAreGenuine(states: seq<System>, steps: seq<Step>, n: nat, i: nat, e: Event)
    requires IsRun(states, steps) && n < |states| && i < |states[n].streams| && e in states[n].streams[i].wire
    ensures exists bytes :: Ever(states, steps, n, i, AdmittedAs(e.page, e.number, bytes))
    ensures e.PageAnswer? ==> Ever(states, steps, n, i, AnsweredAs(e.page, e.failed))
  {
    hide IsRun, StreamInv, Ever, CountedAs;
    var s := states[n].streams[i];
    EveryRunKeeps(states, steps, n);
    WireFits(s, e);
    HistoryShows(states, steps, n, i, AdmittedAs(e.page, e.number, s.pages[e.page].bytes));
    if e.PageAnswer? {
      HistoryShows(states, steps, n, i, AnsweredAs(e.page, e.failed));
    }
  }

  lemma {:induction false} FinishedIsCounted(f: Phase, failed: bool)
    requires Gone(f)
    ensures CountedAs(f, failed) <==> f == Finished(failed)
  {
  }

  /** Over every run, the pages of a returned call that ended with an answer are those
      a worker got that answer for. */
  lemma {:induction false} PagesEndAsAnswered(states: seq<System>, steps: seq<Step>, n: nat, i: nat, k: nat,
        failed: bool)
    requires IsRun(states, steps) && n < |states| && i < |states[n].streams| && k < |states[n].streams[i].pages|
    requires states[n].streams[i].reader.Returned?
    ensures states[n].streams[i].pages[k].phase == Finished(failed) <==>
              Ever(states, steps, n, i, AnsweredAs(k, failed))
  {
    hide IsRun, StreamInv, Ever, CountedAs, Gone;
    var s := states[n].streams[i];
    EveryRunKeeps(states, steps, n);
    ReturnedLeavesNoPage(s, k);
    FinishedIsCounted(s.pages[k].phase, failed);
    HistoryShows(states, steps, n, i, AnsweredAs(k, failed));
  }

  /** Over every run, a call that ends OK delivered, for every page image its reader
      admitted, the start and then the one answer of the kind its worker got. */
  lemma {:induction false} OkDeliversTheAnswers(states: seq<System>, steps: seq<Step>, n: nat, i: nat, k: nat,
                                                number: nat, bytes: nat)
    requires IsRun(states, steps) && n < |states| && i < |states[n].streams|
    requires states[n].streams[i].reader == Returned(StatusOk)
    requires Ever(states, steps, n, i, AdmittedAs(k, number, bytes))
    ensures exists failed ::
              && Ever(states, steps, n, i, AnsweredAs(k, failed)) && !Ever(states, steps, n, i, AnsweredAs(k, !failed))
              && DeliveredOnce(states[n].streams[i].wire, k, number, failed)
  {
    hide IsRun, Ever, DeliveredOnce, CountedAs;
    var s := states[n].streams[i];
    HistoryShows(states, steps, n, i, AdmittedAs(k, number, bytes));
    OkMeansDelivered(states, steps, n, i);
    var failed := s.pages[k].phase.failed;
    PagesEndAsAnswered(states, steps, n, i, k, failed);
    PagesEndAsAnswered(states, steps, n, i, k, !failed);
  }
}
