/**
 The resumable batch runner (internal/batch/batch.go) as a state machine: any number of runs over one
 work directory, one after the other, each with its own dispatcher, workers, stop judge and record,
 and a kill possible before every step. This module speaks of the whole records in the three files;
 BatchDisk puts the files' bytes under it, torn tails included.
 */
module BatchRun {
  import opened Text
  import opened RecordFile
  import opened DispatchOrder

  /** The input, the same for every run: one prefix hash per line. `limit` bounds every run's Concurrency. */
  datatype Config = Config(prefix: seq<int>, limit: nat) {
    function Total(): nat { |prefix| }
  }

  /** Where one worker is inside `send` and the record write that follows it. */
  datatype Worker =
    | Idle
    | Handed(n: nat)                    // received from the dispatcher, nothing done yet
    | Marked(n: nat)                    // the sent mark is on disk
    | InFlight(n: nat)                  // the request has left the process
    | Unlabelled(n: nat)                // the request failed and the first guard of the error switch was false
    | Answering(e: Entry, ok: bool)     // the answer is known, not yet written
  {
    function Line(): nat {
      match this
      case Idle => 0
      case Answering(e, _) => e.line
      case _ => n
    }
  }

  datatype Phase =
    | Interrupting           // writing the previous runs' in-flight lines as interrupted
    | Dispatching(i: nat)    // about to look at the i-th line of the order
    | Selecting(i: nat)      // the context was seen alive; in the select for that line
    | Draining(i: nat)       // the work channel is closed after i lines

  datatype Run = Run(
    known: Snapshot,
    order: seq<nat>,
    workers: seq<Worker>,
    phase: Phase,
    stopped: bool,              // the run's context has ended
    verdict: Option<bool>,      // what the judge said: true = a cancel
    aborted: bool,              // the requests' context has ended
    noted: bool,                // some line was written as cancelled
    cancelled: bool,            // Result.Cancelled while dispatching
    fatal: bool,                // a record write failed
    completed: nat,
    failed: nat,
    interrupted: set<nat>,      // leftovers answered so far
    // history
    lost: set<nat>,             // answers whose write failed and left nothing
    before: nat,                // result writes that had failed when it opened
    base: nat,                  // length of the error file's log when dispatching began
    early: set<nat>,            // failed requests whose error was first looked at before the abort
    late: nat                   // lines handed out after the context ended
  )

  /** How a run returned. */
  datatype Outcome = Outcome(stopped: bool, cancelStop: bool, completed: nat, failed: nat,
                             cancelled: bool, resumable: bool, error: bool)

  /** The whole records on disk, and the history of the requests that left the process. */
  datatype Log = Log(marks: seq<nat>, outs: seq<Entry>, errs: seq<Entry>, left: seq<nat>)

  /** What came of the request of a line: the line was refused, its mark could not be written, the server
      replied, its reply could not be read, or the request failed. */
  datatype Fate = Refused | Unsent | Replied(status: int, rest: string) | Unread | Broken

  /** `failures` counts the result writes that failed, in all runs so far. `fates` and `abandoned` are history:
      what came of each line's request, and the lines some run found in flight when it opened. */
  datatype State = State(run: Option<Run>, log: Log, failures: nat, ended: Option<Outcome>,
                         fates: map<nat, Fate>, abandoned: set<nat>)

  /** What a kill cuts: nothing, or the one write under the record's lock, after `k` bytes. */
  datatype Tear =
    | NoTear
    | TearMark(w: nat, k: nat)
    | TearResult(w: nat, k: nat)
    | TearLeftover(n: nat, rest: string, k: nat)

  /** The dispatcher: the loop over the order, its check of the context and its select. */
  datatype DispatchStep = Begin | Skip | Look | HandOut(w: nat) | LeaveDispatch(cancel: bool)

  /** A worker inside `send`, and the record write after it. The two guards of the switch over a failed
      request read the contexts one after the other, so they are two steps. */
  datatype WorkStep =
    | Refuse(rest: string)
    | Mark
    | MarkFails(rest: string, landed: bool)
    | BadRequest(rest: string)
    | Leave
    | Answer(rest: string, status: int)
    | AnswerUnreadable(rest: string)
    | FailFirst(rest: string)
    | FailSecond(rest: string)
    | WriteResult(io: Write)

  /** The context ends, the stop is judged, the requests are aborted. */
  datatype ControlStep = Stop | Judge(cancel: bool) | Abort

  datatype Step =
    | Open(concurrency: nat, order: seq<nat>, known: Snapshot)
    | AnswerLeftover(n: nat, rest: string, io: Write)
    | StopBeforeReady(cancel: bool)
    | Dispatcher(d: DispatchStep)
    | Work(w: nat, a: WorkStep)
    | Control(x: ControlStep)
    | Return
    | Kill(tear: Tear)

  const INIT := State(None, Log([], [], [], []), 0, None, map[], {})

  // ---- what is where ----

  function AnsweredLines(l: Log): set<nat> {
    ToSet(LinesOf(l.outs)) + ToSet(LinesOf(l.errs))
  }

  /** Marked as sent, with no result: what a kill would leave in flight. */
  function Unanswered(l: Log): set<nat> {
    ToSet(l.marks) - AnsweredLines(l)
  }

  function Held(ws: seq<Worker>): set<nat> {
    set w | 0 <= w < |ws| && !ws[w].Idle? :: ws[w].Line()
  }

  /** The lines of earlier runs that were in flight and are not answered yet. */
  predicate Leftover(c: Config, r: Run, n: nat) {
    n in r.known.sent && n !in r.known.finished && n < c.Total() && n !in r.interrupted
  }

  predicate Skipped(r: Run, n: nat) {
    n in r.known.sent || n in r.known.finished
  }

  predicate ValidRest(rest: string) {
    Entry(0, Answered, rest).Valid()
  }

  // ---- effects on the records ----

  function AddMark(l: Log, n: nat): Log {
    l.(marks := l.marks + [n])
  }

  function AddResult(l: Log, e: Entry, ok: bool): Log {
    if ok then l.(outs := l.outs + [e]) else l.(errs := l.errs + [e])
  }

  /** What a run that opens the record learns, if it reads exactly the whole records. */
  function Whole(l: Log): Snapshot {
    Snapshot(ToSet(l.marks), AnsweredLines(l), |l.outs|, |l.errs|)
  }

  predicate Busy(s: State, w: nat) {
    s.run.Some? && !s.run.value.phase.Interrupting? && w < |s.run.value.workers|
  }

  predicate TearInPlace(s: State, tear: Tear) {
    match tear
    case NoTear => true
    case TearMark(w, _) => Busy(s, w) && s.run.value.workers[w].Handed?
    case TearResult(w, _) => Busy(s, w) && s.run.value.workers[w].Answering?
    case TearLeftover(n, rest, _) => s.run.Some? && s.run.value.phase.Interrupting? && ValidRest(rest)
  }

  /** The write a kill cut short landed whole after all: all of its bytes were out. */
  predicate Escaped(s: State, tear: Tear)
    requires TearInPlace(s, tear)
  {
    match tear
    case NoTear => false
    case TearMark(w, k) => k > |MarkText(s.run.value.workers[w].n)|
    case TearResult(w, k) => k > |EntryText(s.run.value.workers[w].e)|
    case TearLeftover(n, rest, k) => k > |EntryText(Entry(n, Interrupted, rest))|
  }

  // ---- the steps ----

  function OpenRun(k: nat, order: seq<nat>, known: Snapshot, failures: nat): Run {
    Run(known, order, seq(k, _ => Idle), Interrupting, false, None, false, false, false, false,
        known.okCount, known.failCount, {}, {}, failures, 0, {}, 0)
  }

  ghost predicate CanDispatch(c: Config, r: Run, d: DispatchStep) {
    match d
    case Begin => r.phase.Interrupting? && forall n :: !Leftover(c, r, n)
    case Skip => r.phase.Dispatching? && r.phase.i < |r.order| && Skipped(r, r.order[r.phase.i])
    case Look => r.phase.Dispatching? && r.phase.i < |r.order| && !Skipped(r, r.order[r.phase.i]) && !r.stopped
    case HandOut(w) => r.phase.Selecting? && r.phase.i < |r.order| && w < |r.workers| && r.workers[w].Idle?
    case LeaveDispatch(cancel) =>
      match r.phase
      case Dispatching(i) =>
        if i >= |r.order| then !cancel else cancel && !Skipped(r, r.order[i]) && r.stopped
      case Selecting(_) => if cancel then r.stopped else r.fatal
      case _ => false
  }

  function HandedOut(r: Run, w: nat): Run
    requires r.phase.Selecting? && r.phase.i < |r.order| && w < |r.workers|
  {
    r.(workers := r.workers[w := Handed(r.order[r.phase.i])], phase := Dispatching(r.phase.i + 1),
       late := r.late + if r.stopped then 1 else 0)
  }

  ghost function Dispatched(c: Config, l: Log, r: Run, d: DispatchStep): Run
    requires CanDispatch(c, r, d)
  {
    match d
    case Begin => r.(phase := Dispatching(0), base := |l.errs|)
    case Skip => r.(phase := Dispatching(r.phase.i + 1))
    case Look => r.(phase := Selecting(r.phase.i))
    case HandOut(w) => HandedOut(r, w)
    case LeaveDispatch(cancel) => r.(phase := Draining(r.phase.i), cancelled := cancel)
  }

  predicate CanWork(r: Run, w: nat, a: WorkStep) {
    && !r.phase.Interrupting? && w < |r.workers|
    && match a
       case Refuse(rest) => r.workers[w].Handed? && ValidRest(rest)
       case Mark => r.workers[w].Handed?
       case MarkFails(rest, _) => r.workers[w].Handed? && ValidRest(rest)
       case BadRequest(rest) => r.workers[w].Marked? && ValidRest(rest)
       case Leave => r.workers[w].Marked?
       case Answer(rest, _) => r.workers[w].InFlight? && ValidRest(rest)
       case AnswerUnreadable(rest) => r.workers[w].InFlight? && ValidRest(rest)
       case FailFirst(rest) => r.workers[w].InFlight? && ValidRest(rest)
       case FailSecond(rest) => r.workers[w].Unlabelled? && ValidRest(rest)
       case WriteResult(_) => r.workers[w].Answering?
  }

  /** The worker's new state. */
  function NextWorker(r: Run, w: nat, a: WorkStep): Worker
    requires CanWork(r, w, a)
  {
    var n := r.workers[w].Line();
    match a
    case Refuse(rest) => Answering(Entry(n, InvalidRequest, rest), false)
    case Mark => Marked(n)
    case MarkFails(rest, _) => Answering(Entry(n, RequestFailed, rest), false)
    case BadRequest(rest) => Answering(Entry(n, InvalidRequest, rest), false)
    case Leave => InFlight(n)
    case Answer(rest, status) => Answering(Entry(n, Answered, rest), 200 <= status < 300)
    case AnswerUnreadable(rest) => Answering(Entry(n, RequestFailed, rest), false)
    case FailFirst(rest) =>
      if r.stopped && r.aborted && r.verdict == Some(true) then Answering(Entry(n, Cancelled, rest), false)
      else Unlabelled(n)
    case FailSecond(rest) =>
      Answering(Entry(n, if r.stopped && r.aborted then Interrupted else RequestFailed, rest), false)
    case WriteResult(_) => Idle
  }

  /** The counts after a record write, or the failure of it. */
  function Counted(r: Run, n: nat, ok: bool, io: Write): Run {
    match io
    case Landed => if ok then r.(completed := r.completed + 1) else r.(failed := r.failed + 1)
    case Lost => r.(fatal := true, lost := r.lost + {n})
    case Unsynced => r.(fatal := true)
  }

  /** What else changes in the run. */
  function Flags(r: Run, w: nat, a: WorkStep): Run
    requires CanWork(r, w, a)
  {
    match a
    case FailFirst(_) =>
      if !(r.stopped && r.aborted) then r.(early := r.early + {r.workers[w].n})
      else if r.verdict == Some(true) then r.(noted := true)
      else r
    case WriteResult(io) => Counted(r, r.workers[w].e.line, r.workers[w].ok, io)
    case _ => r
  }

  function Worked(r: Run, w: nat, a: WorkStep): Run
    requires CanWork(r, w, a)
  {
    Flags(r, w, a).(workers := r.workers[w := NextWorker(r, w, a)])
  }

  /** What reaches the disk, and which request leaves. */
  function Logged(l: Log, r: Run, w: nat, a: WorkStep): Log
    requires CanWork(r, w, a)
  {
    match a
    case Mark => AddMark(l, r.workers[w].n)
    case MarkFails(_, true) => AddMark(l, r.workers[w].n)
    case Leave => l.(left := l.left + [r.workers[w].n])
    case WriteResult(io) => if io.Lost? then l else AddResult(l, r.workers[w].e, r.workers[w].ok)
    case _ => l
  }

  /** What came of the request in this step, if anything did. */
  function FateOf(a: WorkStep): Option<Fate> {
    match a
    case Refuse(_) => Some(Refused)
    case BadRequest(_) => Some(Refused)
    case MarkFails(_, _) => Some(Unsent)
    case Answer(rest, status) => Some(Replied(status, rest))
    case AnswerUnreadable(_) => Some(Unread)
    case FailFirst(_) => Some(Broken)
    case _ => None
  }

  function Fated(fates: map<nat, Fate>, n: nat, a: WorkStep): map<nat, Fate> {
    if FateOf(a).None? then fates else fates[n := FateOf(a).value]
  }

  predicate CanControl(r: Run, x: ControlStep) {
    match x
    case Stop => true
    case Judge(_) => !r.phase.Interrupting? && r.stopped && r.verdict.None?
    case Abort => r.verdict.Some?
  }

  function Controlled(r: Run, x: ControlStep): Run {
    match x
    case Stop => r.(stopped := true)
    case Judge(cancel) => r.(verdict := Some(cancel))
    case Abort => r.(aborted := true)
  }

  /** The result a run returns once its workers are done (or before it began, `r.phase` Interrupting). */
  function Verdict(c: Config, r: Run, cancel: bool): Outcome {
    var unfinished := r.completed + r.failed < c.Total();
    if !r.stopped then Outcome(false, false, r.completed, r.failed, r.cancelled, false, r.fatal)
    else if !cancel then Outcome(true, false, r.completed, r.failed, false, unfinished, r.fatal)
    else Outcome(true, true, r.completed, r.failed, r.cancelled || r.noted || r.phase.Interrupting?, false, r.fatal)
  }

  predicate Finished(r: Run) {
    && r.phase.Draining? && (r.stopped ==> r.verdict.Some?)
    && forall w | 0 <= w < |r.workers| :: r.workers[w].Idle?
  }

  ghost predicate Enabled(c: Config, s: State, step: Step) {
    match step
    case Open(k, order, _) =>
      s.run.None? && 1 <= k <= c.limit && (order == Identity(c.Total()) || Grouped(c.prefix, order))
    case AnswerLeftover(n, rest, _) =>
      s.run.Some? && s.run.value.phase.Interrupting? && Leftover(c, s.run.value, n) && ValidRest(rest)
    case StopBeforeReady(_) =>
      s.run.Some? && s.run.value.phase.Interrupting? && s.run.value.stopped && forall n :: !Leftover(c, s.run.value, n)
    case Dispatcher(d) => s.run.Some? && CanDispatch(c, s.run.value, d)
    case Work(w, a) => s.run.Some? && CanWork(s.run.value, w, a)
    case Control(x) => s.run.Some? && CanControl(s.run.value, x)
    case Return => s.run.Some? && Finished(s.run.value)
    case Kill(tear) => TearInPlace(s, tear) && (tear.TearLeftover? ==> Leftover(c, s.run.value, tear.n))
  }

  function RecordFailed(r: Run): Outcome {
    Outcome(r.stopped, false, r.completed, r.failed, false, false, true)
  }

  function LeftoverWritten(s: State, n: nat, rest: string, io: Write): State
    requires s.run.Some?
  {
    var r, e := s.run.value, Entry(n, Interrupted, rest);
    match io
    case Landed =>
      s.(run := Some(r.(failed := r.failed + 1, interrupted := r.interrupted + {n})), log := AddResult(s.log, e, false))
    case Lost => s.(run := None, failures := s.failures + 1, ended := Some(RecordFailed(r)))
    case Unsynced =>
      s.(run := None, log := AddResult(s.log, e, false), failures := s.failures + 1, ended := Some(RecordFailed(r)))
  }

  function Killed(s: State, tear: Tear): Log
    requires TearInPlace(s, tear)
  {
    if !Escaped(s, tear) then s.log
    else match tear
         case TearMark(w, _) => AddMark(s.log, s.run.value.workers[w].n)
         case TearResult(w, _) => AddResult(s.log, s.run.value.workers[w].e, s.run.value.workers[w].ok)
         case TearLeftover(n, rest, _) => AddResult(s.log, Entry(n, Interrupted, rest), false)
  }

  ghost function Do(c: Config, s: State, step: Step): State
    requires Enabled(c, s, step)
  {
    match step
    case Open(k, order, known) =>
      s.(run := Some(OpenRun(k, order, known, s.failures)), ended := None,
         abandoned := s.abandoned + (known.sent - known.finished))
    case AnswerLeftover(n, rest, io) => LeftoverWritten(s, n, rest, io)
    case StopBeforeReady(cancel) => s.(run := None, ended := Some(Verdict(c, s.run.value, cancel)))
    case Dispatcher(d) => s.(run := Some(Dispatched(c, s.log, s.run.value, d)))
    case Work(w, a) =>
      s.(run := Some(Worked(s.run.value, w, a)), log := Logged(s.log, s.run.value, w, a),
         failures := s.failures + (if a.WriteResult? && !a.io.Landed? then 1 else 0),
         fates := Fated(s.fates, s.run.value.workers[w].Line(), a))
    case Control(x) => s.(run := Some(Controlled(s.run.value, x)))
    case Return => s.(run := None, ended := Some(Verdict(c, s.run.value, s.run.value.verdict == Some(true))))
    case Kill(tear) => s.(run := None, log := Killed(s, tear), ended := None)
  }

  /** A step of a run that reads its record right: an open learns exactly the whole records. */
  ghost predicate CanTake(c: Config, s: State, step: Step) {
    Enabled(c, s, step) && (step.Open? ==> step.known == Whole(s.log))
  }

  /** `s'` is reached from `s` by taking `steps` in order. */
  ghost predicate Reaches(c: Config, s: State, steps: seq<Step>, s': State)
    decreases |steps|
  {
    if steps == [] then s == s'
    else CanTake(c, s, steps[0]) && Reaches(c, Do(c, s, steps[0]), steps[1..], s')
  }
}
