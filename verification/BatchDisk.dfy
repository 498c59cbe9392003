/**
 The batch runner over the bytes of its three files. A run learns of earlier runs only by repairing
 and scanning those bytes; a kill leaves any prefix of the write it cut. Every history of this machine
 is a history of BatchRun, and the guarantees of the work directory follow.
 */
module BatchDisk {
  import opened Text
  import opened RecordFile
  import opened BatchRun
  import opened BatchSafety

  datatype Files = Files(sent: string, out: string, err: string)

  /** The bytes, and the runner beside them. The runner's log is history: no step reads it. */
  datatype Directory = Directory(f: Files, s: State, reader: Reader)

  function Empty(rd: Reader): Directory {
    Directory(Files("", "", ""), INIT, rd)
  }

  datatype Event = Take(step: Step) | RepairSent | RepairOut | RepairErr

  function AppendResult(f: Files, text: string, ok: bool): Files {
    if ok then f.(out := f.out + text) else f.(err := f.err + text)
  }

  function Cut(text: string, k: nat): string {
    if k < |text| then text[..k] else text
  }

  function WorkBytes(f: Files, x: Worker, a: WorkStep): Files
    requires (a.Mark? || a.MarkFails? ==> x.Handed?) && (a.WriteResult? ==> x.Answering?)
  {
    match a
    case Mark => f.(sent := f.sent + (MarkText(x.n) + "\n"))
    case MarkFails(_, true) => f.(sent := f.sent + (MarkText(x.n) + "\n"))
    case WriteResult(io) => if io.Lost? then f else AppendResult(f, EntryText(x.e) + "\n", x.ok)
    case _ => f
  }

  function KillBytes(f: Files, s: State, tear: Tear): Files
    requires TearInPlace(s, tear)
  {
    match tear
    case NoTear => f
    case TearMark(w, k) => f.(sent := f.sent + Cut(MarkText(s.run.value.workers[w].n) + "\n", k))
    case TearResult(w, k) =>
      AppendResult(f, Cut(EntryText(s.run.value.workers[w].e) + "\n", k), s.run.value.workers[w].ok)
    case TearLeftover(n, rest, k) => AppendResult(f, Cut(EntryText(Entry(n, Interrupted, rest)) + "\n", k), false)
  }

  /** What a step does to the bytes. */
  ghost function Bytes(c: Config, f: Files, s: State, step: Step): Files
    requires Enabled(c, s, step)
  {
    match step
    case Open(_, _, _) => Files(Complete(f.sent), Complete(f.out), Complete(f.err))
    case AnswerLeftover(n, rest, io) =>
      if io.Lost? then f else AppendResult(f, EntryText(Entry(n, Interrupted, rest)) + "\n", false)
    case Work(w, a) => WorkBytes(f, s.run.value.workers[w], a)
    case Kill(tear) => KillBytes(f, s, tear)
    case _ => f
  }

  /** An open learns what it can read; a repair may also be all an opening run lives to do. */
  ghost predicate Possible(c: Config, d: Directory, ev: Event) {
    match ev
    case Take(step) =>
      && Enabled(c, d.s, step)
      && (step.Open? ==> step.known == Resume(d.reader, d.f.sent, d.f.out, d.f.err))
    case _ => d.s.run.None?
  }

  ghost function Apply(c: Config, d: Directory, ev: Event): Directory
    requires Possible(c, d, ev)
  {
    match ev
    case Take(step) => d.(f := Bytes(c, d.f, d.s, step), s := Do(c, d.s, step))
    case RepairSent => d.(f := d.f.(sent := Complete(d.f.sent)))
    case RepairOut => d.(f := d.f.(out := Complete(d.f.out)))
    case RepairErr => d.(f := d.f.(err := Complete(d.f.err)))
  }

  /** `d'` is what any number of runs, with the given events, make of `d`. */
  ghost predicate History(c: Config, d: Directory, evs: seq<Event>, d': Directory)
    decreases |evs|
  {
    if evs == [] then d == d'
    else Possible(c, d, evs[0]) && History(c, Apply(c, d, evs[0]), evs[1..], d')
  }

  // ---- the files hold the log ----

  ghost predicate Holds(f: Files, l: Log) {
    && Complete(f.sent) == Render(MarkTexts(l.marks))
    && Complete(f.out) == Render(EntryTexts(l.outs))
    && Complete(f.err) == Render(EntryTexts(l.errs))
  }

  ghost predicate Clean(f: Files) {
    Complete(f.sent) == f.sent && Complete(f.out) == f.out && Complete(f.err) == f.err
  }

  ghost predicate ValidEntries(s: State) {
    && (forall e <- s.log.outs :: e.Valid() && e.code == Answered)
    && (forall e <- s.log.errs :: e.Valid())
    && (s.run.Some? ==>
          forall w | 0 <= w < |s.run.value.workers| && s.run.value.workers[w].Answering? ::
            && s.run.value.workers[w].e.Valid()
            && (s.run.value.workers[w].ok ==> s.run.value.workers[w].e.code == Answered))
  }

  ghost predicate DiskInv(d: Directory) {
    Holds(d.f, d.s.log) && ValidEntries(d.s) && (d.s.run.Some? ==> Clean(d.f))
  }

  lemma HoldsMark(f: Files, l: Log, n: nat, k: nat)
    requires Holds(f, l) && Clean(f)
    ensures k <= |MarkText(n)| ==> Holds(f.(sent := f.sent + (MarkText(n) + "\n")[..k]), l)
    ensures Holds(f.(sent := f.sent + (MarkText(n) + "\n")), AddMark(l, n))
    ensures Clean(f.(sent := f.sent + (MarkText(n) + "\n")))
  {
    var ls, text := MarkTexts(l.marks), MarkText(n);
    MarkWhole(n);
    assert MarkTexts(l.marks + [n]) == ls + [text];
    RenderAppend(ls, text);
    RenderComplete(ls + [text]);
    if k <= |text| {
      TornAppend(ls, text, k);
    }
  }

  lemma HoldsResult(f: Files, l: Log, e: Entry, ok: bool, k: nat)
    requires Holds(f, l) && Clean(f) && e.Valid()
    ensures k <= |EntryText(e)| ==> Holds(AppendResult(f, (EntryText(e) + "\n")[..k], ok), l)
    ensures Holds(AppendResult(f, EntryText(e) + "\n", ok), AddResult(l, e, ok))
    ensures Clean(AppendResult(f, EntryText(e) + "\n", ok))
  {
    var es, text := if ok then l.outs else l.errs, EntryText(e);
    var ls := EntryTexts(es);
    EntryWhole(e);
    assert EntryTexts(es + [e]) == ls + [text];
    RenderAppend(ls, text);
    RenderComplete(ls + [text]);
    if k <= |text| {
      TornAppend(ls, text, k);
    }
  }

  lemma WorkKeepsEntries(c: Config, s: State, w: nat, a: WorkStep)
    requires ValidEntries(s) && Enabled(c, s, Work(w, a))
    ensures ValidEntries(Do(c, s, Work(w, a)))
  {
  }

  lemma DispatchKeepsEntries(c: Config, s: State, d: DispatchStep)
    requires ValidEntries(s) && Enabled(c, s, Dispatcher(d))
    ensures ValidEntries(Do(c, s, Dispatcher(d)))
  {
  }

  lemma ValidEntriesKept(c: Config, s: State, step: Step)
    requires ValidEntries(s) && Enabled(c, s, step)
    ensures ValidEntries(Do(c, s, step))
  {
    match step
    case Work(w, a) => WorkKeepsEntries(c, s, w, a);
    case Dispatcher(d) => DispatchKeepsEntries(c, s, d);
    case _ =>
  }

  lemma CutMark(f: Files, l: Log, n: nat, k: nat)
    requires Holds(f, l) && Clean(f)
    ensures Holds(f.(sent := f.sent + Cut(MarkText(n) + "\n", k)), if k > |MarkText(n)| then AddMark(l, n) else l)
  {
    HoldsMark(f, l, n, k);
  }

  lemma CutResult(f: Files, l: Log, e: Entry, ok: bool, k: nat)
    requires Holds(f, l) && Clean(f) && e.Valid()
    ensures Holds(AppendResult(f, Cut(EntryText(e) + "\n", k), ok),
                  if k > |EntryText(e)| then AddResult(l, e, ok) else l)
  {
    HoldsResult(f, l, e, ok, k);
  }

  lemma KillHolds(d: Directory, tear: Tear)
    requires DiskInv(d) && TearInPlace(d.s, tear)
    ensures Holds(KillBytes(d.f, d.s, tear), Killed(d.s, tear))
  {
    match tear {
      case NoTear =>
      case TearMark(w, k) => CutMark(d.f, d.s.log, d.s.run.value.workers[w].n, k);
      case TearResult(w, k) => CutResult(d.f, d.s.log, d.s.run.value.workers[w].e, d.s.run.value.workers[w].ok, k);
      case TearLeftover(n, rest, k) => CutResult(d.f, d.s.log, Entry(n, Interrupted, rest), false, k);
    }
  }

  lemma WorkHolds(f: Files, l: Log, r: Run, w: nat, a: WorkStep)
    requires Holds(f, l) && Clean(f) && CanWork(r, w, a) && (r.workers[w].Answering? ==> r.workers[w].e.Valid())
    ensures Holds(WorkBytes(f, r.workers[w], a), Logged(l, r, w, a)) && Clean(WorkBytes(f, r.workers[w], a))
  {
    match a {
      case Mark => HoldsMark(f, l, r.workers[w].n, 0);
      case MarkFails(_, true) => HoldsMark(f, l, r.workers[w].n, 0);
      case WriteResult(io) =>
        if !io.Lost? {
          HoldsResult(f, l, r.workers[w].e, r.workers[w].ok, 0);
        }
      case _ =>
    }
  }

  lemma OpenReadsLog(c: Config, d: Directory)
    requires Inv(c, d.s) && DiskInv(d)
    ensures Resume(d.reader, d.f.sent, d.f.out, d.f.err) == Whole(d.s.log)
  {
    ResumeReadsWholeRecords(d.reader, d.f.sent, d.f.out, d.f.err, d.s.log.marks, d.s.log.outs, d.s.log.errs);
  }

  lemma RepairHolds(f: Files, l: Log)
    requires Holds(f, l)
    ensures Holds(f.(sent := Complete(f.sent)), l) && Holds(f.(out := Complete(f.out)), l)
    ensures Holds(f.(err := Complete(f.err)), l)
    ensures Holds(Files(Complete(f.sent), Complete(f.out), Complete(f.err)), l)
    ensures Clean(Files(Complete(f.sent), Complete(f.out), Complete(f.err)))
  {
    RepairIdempotent(f.sent);
    RepairIdempotent(f.out);
    RepairIdempotent(f.err);
  }

  lemma LeftoverHolds(f: Files, s: State, n: nat, rest: string, io: Write)
    requires Holds(f, s.log) && Clean(f) && s.run.Some? && ValidRest(rest)
    ensures var f' := if io.Lost? then f else AppendResult(f, EntryText(Entry(n, Interrupted, rest)) + "\n", false);
            Holds(f', LeftoverWritten(s, n, rest, io).log) && Clean(f')
  {
    HoldsResult(f, s.log, Entry(n, Interrupted, rest), false, 0);
  }

  lemma BytesHold(c: Config, d: Directory, step: Step)
    requires DiskInv(d) && Enabled(c, d.s, step)
    ensures Holds(Bytes(c, d.f, d.s, step), Do(c, d.s, step).log)
    ensures Do(c, d.s, step).run.Some? ==> Clean(Bytes(c, d.f, d.s, step))
  {
    var f, l := d.f, d.s.log;
    match step {
      case Open(_, _, _) => RepairHolds(f, l);
      case AnswerLeftover(n, rest, io) => LeftoverHolds(f, d.s, n, rest, io);
      case Work(w, a) => WorkHolds(f, l, d.s.run.value, w, a);
      case Kill(tear) => KillHolds(d, tear);
      case _ =>
    }
  }

  /** The bytes refine the records: whatever a run can do to the files, it does to the log, and what an
      open reads is exactly the log. */
  lemma EventRefines(c: Config, d: Directory, ev: Event)
    requires Inv(c, d.s) && DiskInv(d) && Possible(c, d, ev)
    ensures DiskInv(Apply(c, d, ev)) && Inv(c, Apply(c, d, ev).s)
    ensures ev.Take? ==> CanTake(c, d.s, ev.step)
  {
    RepairHolds(d.f, d.s.log);
    if ev.Take? {
      OpenReadsLog(c, d);
      ValidEntriesKept(c, d.s, ev.step);
      BytesHold(c, d, ev.step);
      StepKeepsInv(c, d.s, ev.step);
    }
  }

  // ---- the exit status ----

  const EXIT_INTERRUPTED := 75

  function ExitCode(o: Outcome): nat {
    if o.resumable then EXIT_INTERRUPTED else 0
  }

  // ---- whole histories ----

  function Taken(evs: seq<Event>): seq<Step> {
    if evs == [] then []
    else (if evs[0].Take? then [evs[0].step] else []) + Taken(evs[1..])
  }

  /** Every history of the directory is a history of runs that read their record right, and keeps the
      invariant. */
  lemma {:induction false} HistoryRefines(c: Config, d: Directory, evs: seq<Event>, d': Directory)
    requires Inv(c, d.s) && DiskInv(d) && History(c, d, evs, d')
    ensures Inv(c, d'.s) && DiskInv(d')
    ensures Reaches(c, d.s, Taken(evs), d'.s)
    decreases |evs|
  {
    if evs != [] {
      EventRefines(c, d, evs[0]);
      HistoryRefines(c, Apply(c, d, evs[0]), evs[1..], d');
      var steps := Taken(evs);
      if evs[0].Take? {
        assert steps[0] == evs[0].step && steps[1..] == Taken(evs[1..]);
      } else {
        assert steps == Taken(evs[1..]);
      }
    }
  }

  lemma FromEmpty(c: Config, rd: Reader, evs: seq<Event>, d: Directory)
    requires History(c, Empty(rd), evs, d)
    ensures Inv(c, d.s) && DiskInv(d)
  {
    assert Render(MarkTexts([])) == "" && Render(EntryTexts([])) == "";
    assert ToSet([]) == {} && LinesOf([]) == [];
    HistoryRefines(c, Empty(rd), evs, d);
  }

  /** The lines with a whole result on disk, read from the bytes: output file first, then error file. */
  function ResultsOn(d: Directory): seq<nat> {
    IdsOf(d.reader, Lines(Complete(d.f.out))) + IdsOf(d.reader, Lines(Complete(d.f.err)))
  }

  lemma ResultsOnDisk(c: Config, d: Directory)
    requires Inv(c, d.s) && DiskInv(d)
    ensures IdsOf(d.reader, Lines(Complete(d.f.out))) == LinesOf(d.s.log.outs)
    ensures IdsOf(d.reader, Lines(Complete(d.f.err))) == LinesOf(d.s.log.errs)
  {
    TallyTexts(d.reader, d.s.log.outs, {});
    TallyTexts(d.reader, d.s.log.errs, {});
    LinesRender(EntryTexts(d.s.log.outs));
    LinesRender(EntryTexts(d.s.log.errs));
    IdsOfTexts(d.reader, d.s.log.outs);
    IdsOfTexts(d.reader, d.s.log.errs);
  }

  lemma ResultsAreAnswered(c: Config, d: Directory)
    requires Inv(c, d.s) && DiskInv(d)
    ensures forall n :: n in ResultsOn(d) <==> n in AnsweredLines(d.s.log)
  {
    ResultsOnDisk(c, d);
  }

  lemma {:induction false} OnceInDistinct(ns: seq<nat>, n: nat)
    requires Distinct(ns)
    ensures multiset(ns)[n] == if n in ns then 1 else 0
  {
    if ns != [] {
      var init, last := ns[..|ns| - 1], ns[|ns| - 1];
      OnceInDistinct(init, n);
      assert ns == init + [last];
    }
  }

  lemma ResultCount(l: Log, n: nat)
    requires Records(l)
    ensures multiset(LinesOf(l.outs) + LinesOf(l.errs))[n] == if n in AnsweredLines(l) then 1 else 0
  {
    OnceInDistinct(LinesOf(l.outs), n);
    OnceInDistinct(LinesOf(l.errs), n);
  }

  /** At most once: over any number of runs on one directory, each possibly killed at any point with
      any write cut anywhere, the request of a line leaves the process at most once. */
  lemma AtMostOnce(c: Config, rd: Reader, evs: seq<Event>, d: Directory, n: nat)
    requires History(c, Empty(rd), evs, d)
    ensures multiset(d.s.log.left)[n] <= 1
  {
    FromEmpty(c, rd, evs, d);
    OnceInDistinct(d.s.log.left, n);
  }

  /** A request that left has a whole sent mark that survives tail repair and is read by the next open. */
  lemma LeftIsMarked(c: Config, rd: Reader, evs: seq<Event>, d: Directory, n: nat)
    requires History(c, Empty(rd), evs, d) && n in d.s.log.left
    ensures n in MarksOf(d.reader, Lines(Complete(d.f.sent)))
    ensures n in Resume(d.reader, d.f.sent, d.f.out, d.f.err).sent
  {
    FromEmpty(c, rd, evs, d);
    MarksOfTexts(d.reader, d.s.log.marks);
    LinesRender(MarkTexts(d.s.log.marks));
    assert n in ToSet(d.s.log.marks);
  }

  /** At most one result per line, in the bytes of every reachable directory, and only for input lines. */
  lemma OneResultPerLine(c: Config, rd: Reader, evs: seq<Event>, d: Directory, n: nat)
    requires History(c, Empty(rd), evs, d)
    ensures multiset(ResultsOn(d))[n] <= 1
    ensures n in ResultsOn(d) ==> n < c.Total()
  {
    FromEmpty(c, rd, evs, d);
    ResultsOnDisk(c, d);
    ResultCount(d.s.log, n);
    assert n in ResultsOn(d) ==> n in AnsweredLines(d.s.log);
  }

  /** A run that returned no error and is neither cancelled nor resumable leaves exactly one result per
      line, and its counts add up. */
  lemma FinishedRunAnswersAll(c: Config, rd: Reader, evs: seq<Event>, d: Directory, n: nat)
    requires History(c, Empty(rd), evs, d) && d.s.ended.Some?
    requires !d.s.ended.value.error && !d.s.ended.value.cancelled && !d.s.ended.value.resumable
    ensures multiset(ResultsOn(d))[n] == if n < c.Total() then 1 else 0
    ensures d.s.ended.value.completed + d.s.ended.value.failed == c.Total()
    ensures d.s.ended.value.completed == |IdsOf(d.reader, Lines(Complete(d.f.out)))|
    ensures d.s.ended.value.failed == |IdsOf(d.reader, Lines(Complete(d.f.err)))|
  {
    FromEmpty(c, rd, evs, d);
    ResultsOnDisk(c, d);
    ResultCount(d.s.log, n);
    AnsweredSize(d.s.log);
    SubsetSize(AnsweredLines(d.s.log), Below(c.Total()));
  }

  lemma SomeUnanswered(c: Config, l: Log)
    requires Records(l) && Known(c, ViewOf(l))
    ensures |l.outs| + |l.errs| < c.Total() <==> exists n: nat | n < c.Total() :: n !in AnsweredLines(l)
  {
    AnsweredSize(l);
    var all, done := Below(c.Total()), AnsweredLines(l);
    if n: nat :| n < c.Total() && n !in done {
      SubsetSize(done + {n}, all);
    } else {
      SubsetSize(all, done);
    }
  }

  /** Exit status 75 says exactly that the run was stopped by something that was not a cancel and some
      line has no result yet. */
  lemma ResumableExactly(c: Config, rd: Reader, evs: seq<Event>, d: Directory)
    requires History(c, Empty(rd), evs, d) && d.s.ended.Some? && !d.s.ended.value.error
    ensures ExitCode(d.s.ended.value) == EXIT_INTERRUPTED <==>
            d.s.ended.value.stopped && !d.s.ended.value.cancelStop &&
            exists n: nat | n < c.Total() :: n !in ResultsOn(d)
  {
    FromEmpty(c, rd, evs, d);
    ResultsAreAnswered(c, d);
    SomeUnanswered(c, d.s.log);
  }

  lemma KilledUnanswered(s: State, tear: Tear)
    requires s.run.Some? && !s.run.value.phase.Interrupting? && TearInPlace(s, tear)
    requires Unanswered(s.log) <= Held(s.run.value.workers) + s.run.value.lost
    ensures Unanswered(Killed(s, tear)) <= Held(s.run.value.workers) + s.run.value.lost
  {
    var l, r := s.log, s.run.value;
    if Escaped(s, tear) {
      match tear {
        case TearMark(w, _) => ToSetAppend(l.marks, r.workers[w].n);
        case TearResult(w, _) => AnsweredAdded(l, r.workers[w].e, r.workers[w].ok);
      }
    }
  }

  /** What a run past its leftovers has in flight. */
  ghost predicate InFlightHeld(c: Config, s: State) {
    s.run.Some? && !s.run.value.phase.Interrupting? ==>
      && Unanswered(s.log) <= Held(s.run.value.workers) + s.run.value.lost
      && |s.run.value.workers| <= c.limit && |s.run.value.lost| <= s.failures
  }

  lemma InvHolds(c: Config, s: State)
    requires Inv(c, s)
    ensures InFlightHeld(c, s)
  {
    assert s.run.Some? && !s.run.value.phase.Interrupting? ==> Behind(ViewOf(s.log), s.run.value);
  }

  /** A run past its leftovers has at most its own workers' lines and its lost answers in flight. */
  lemma RunningBound(c: Config, s: State)
    requires InFlightHeld(c, s) && s.run.Some? && !s.run.value.phase.Interrupting?
    ensures |Unanswered(s.log)| <= |s.run.value.workers| + |s.run.value.lost| <= c.limit + s.failures
  {
    HeldAndLost(s.run.value, Unanswered(s.log));
  }

  ghost predicate Bounded(c: Config, s: State) {
    |Unanswered(s.log)| <= c.limit + s.failures
  }

  lemma AnswerShrinks(l: Log, e: Entry, ok: bool)
    ensures |Unanswered(AddResult(l, e, ok))| <= |Unanswered(l)|
  {
    AnsweredAdded(l, e, ok);
    SubsetSize(Unanswered(AddResult(l, e, ok)), Unanswered(l));
  }

  lemma KilledBounded(c: Config, s: State, tear: Tear)
    requires InFlightHeld(c, s) && Bounded(c, s) && TearInPlace(s, tear)
    ensures |Unanswered(Killed(s, tear))| <= c.limit + s.failures
  {
    if s.run.Some? && !s.run.value.phase.Interrupting? {
      KilledUnanswered(s, tear);
      HeldAndLost(s.run.value, Unanswered(Killed(s, tear)));
    } else if tear.TearLeftover? {
      AnswerShrinks(s.log, Entry(tear.n, Interrupted, tear.rest), false);
    }
  }

  /** Steps that touch neither the log nor a run past its leftovers. */
  lemma OtherBounded(c: Config, s: State, step: Step)
    requires Bounded(c, s) && Enabled(c, s, step) && !step.Work? && !step.Kill?
    ensures Bounded(c, Do(c, s, step))
  {
    if step.AnswerLeftover? {
      AnswerShrinks(s.log, Entry(step.n, Interrupted, step.rest), false);
    }
  }

  lemma WorkBounded(c: Config, s: State, w: nat, a: WorkStep)
    requires Enabled(c, s, Work(w, a)) && InFlightHeld(c, Do(c, s, Work(w, a)))
    ensures Bounded(c, Do(c, s, Work(w, a)))
  {
    assert Worked(s.run.value, w, a).phase == s.run.value.phase;
    RunningBound(c, Do(c, s, Work(w, a)));
  }

  lemma StepBounded(c: Config, s: State, step: Step)
    requires InFlightHeld(c, s) && Bounded(c, s) && Enabled(c, s, step) && InFlightHeld(c, Do(c, s, step))
    ensures Bounded(c, Do(c, s, step))
  {
    if step.Kill? {
      KilledBounded(c, s, step.tear);
    } else if step.Work? {
      WorkBounded(c, s, step.w, step.a);
    } else {
      OtherBounded(c, s, step);
    }
  }

  lemma {:induction false} HistoryBounded(c: Config, d: Directory, evs: seq<Event>, d': Directory)
    requires Inv(c, d.s) && DiskInv(d) && Bounded(c, d.s) && History(c, d, evs, d')
    ensures Bounded(c, d'.s)
    decreases |evs|
  {
    if evs != [] {
      EventRefines(c, d, evs[0]);
      InvHolds(c, d.s);
      InvHolds(c, Apply(c, d, evs[0]).s);
      if evs[0].Take? {
        StepBounded(c, d.s, evs[0].step);
      }
      HistoryBounded(c, Apply(c, d, evs[0]), evs[1..], d');
    }
  }

  lemma AlwaysBounded(c: Config, rd: Reader, evs: seq<Event>, d: Directory)
    requires History(c, Empty(rd), evs, d)
    ensures Bounded(c, d.s)
  {
    FromEmpty(c, rd, [], Empty(rd));
    assert Unanswered(INIT.log) == {};
    HistoryBounded(c, Empty(rd), evs, d);
  }

  /** The lines a run opening now would answer as interrupted are at most the workers a run may have,
      plus the result writes that failed; once a run is past its leftovers, at most its own workers plus the
      answers it lost itself. */
  lemma InterruptedBound(c: Config, rd: Reader, evs: seq<Event>, d: Directory)
    requires History(c, Empty(rd), evs, d)
    ensures var known := Resume(d.reader, d.f.sent, d.f.out, d.f.err);
            && |known.sent - known.finished| <= c.limit + d.s.failures
            && (d.s.run.Some? && !d.s.run.value.phase.Interrupting? ==>
                |known.sent - known.finished| <= |d.s.run.value.workers| + |d.s.run.value.lost|)
  {
    FromEmpty(c, rd, evs, d);
    AlwaysBounded(c, rd, evs, d);
    OpenReadsLog(c, d);
    if d.s.run.Some? && !d.s.run.value.phase.Interrupting? {
      InvHolds(c, d.s);
      RunningBound(c, d.s);
    }
  }

  /** After a kill the next open reads the whole records, the cut write among them only if it was out. */
  lemma KilledReads(c: Config, rd: Reader, evs: seq<Event>, d: Directory, tear: Tear)
    requires History(c, Empty(rd), evs, d) && Enabled(c, d.s, Kill(tear))
    ensures var f := KillBytes(d.f, d.s, tear);
            Resume(d.reader, f.sent, f.out, f.err) == Whole(Killed(d.s, tear))
  {
    FromEmpty(c, rd, evs, d);
    EventRefines(c, d, Take(Kill(tear)));
    var d' := Apply(c, d, Take(Kill(tear)));
    assert d'.f == KillBytes(d.f, d.s, tear) && d'.s.log == Killed(d.s, tear);
    OpenReadsLog(c, d');
  }

  lemma KilledSize(c: Config, rd: Reader, evs: seq<Event>, d: Directory, tear: Tear)
    requires History(c, Empty(rd), evs, d) && TearInPlace(d.s, tear)
    requires d.s.run.Some? && !d.s.run.value.phase.Interrupting?
    ensures |Unanswered(Killed(d.s, tear))| <= |d.s.run.value.workers| + |d.s.run.value.lost|
  {
    FromEmpty(c, rd, evs, d);
    InvHolds(c, d.s);
    KilledUnanswered(d.s, tear);
    HeldAndLost(d.s.run.value, Unanswered(Killed(d.s, tear)));
  }

  /** So one kill makes at most that many lines interrupted, whichever write it cuts. */
  lemma KillBound(c: Config, rd: Reader, evs: seq<Event>, d: Directory, tear: Tear)
    requires History(c, Empty(rd), evs, d) && d.s.run.Some? && !d.s.run.value.phase.Interrupting?
    requires Enabled(c, d.s, Kill(tear))
    ensures var f := KillBytes(d.f, d.s, tear);
            var known := Resume(d.reader, f.sent, f.out, f.err);
            |known.sent - known.finished| <= |d.s.run.value.workers| + |d.s.run.value.lost|
  {
    KilledReads(c, rd, evs, d, tear);
    KilledSize(c, rd, evs, d, tear);
  }

  /** After the context ends at most one more line is handed to a worker. */
  lemma StopEndsDispatch(c: Config, rd: Reader, evs: seq<Event>, d: Directory)
    requires History(c, Empty(rd), evs, d) && d.s.run.Some?
    ensures d.s.run.value.late <= 1
  {
    FromEmpty(c, rd, evs, d);
  }
}
