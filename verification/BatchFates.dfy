/**
 What becomes of every line (internal/batch/batch.go): a line whose request came back with a 2xx is in the
 output file with that answer, every other line is in the error file under the code of what came of it.
 */
module BatchFates {
  import opened Text
  import opened RecordFile
  import opened BatchRun
  import opened BatchSafety
  import opened BatchDisk

  /** The server answered the line's request with a 2xx. */
  ghost predicate Won(fates: map<nat, Fate>, n: nat) {
    n in fates && fates[n].Replied? && 200 <= fates[n].status < 300
  }

  /** The result says what came of the line's request: a reply is carried as it came, and goes to the output
      file exactly when it is a 2xx. */
  ghost predicate Fits(fates: map<nat, Fate>, e: Entry, ok: bool) {
    && e.line in fates && (ok <==> Won(fates, e.line))
    && match fates[e.line]
       case Refused => e.code == InvalidRequest
       case Unsent => e.code == RequestFailed
       case Replied(_, rest) => e.code == Answered && e.rest == rest
       case Unread => e.code == RequestFailed
       case Broken => e.code == Cancelled || e.code == Interrupted || e.code == RequestFailed
  }

  /** A result in the error file: a line found in flight by a later run is interrupted, whatever came of it. */
  ghost predicate FitsError(s: State, e: Entry) {
    if e.line in s.abandoned then e.code == Interrupted else Fits(s.fates, e, false)
  }

  ghost predicate WorkerFits(s: State, x: Worker) {
    && x.Line() !in s.abandoned
    && (x.Answering? ==> Fits(s.fates, x.e, x.ok))
    && (x.Unlabelled? ==> x.n in s.fates && s.fates[x.n] == Broken)
  }

  ghost predicate RunFits(s: State, r: Run) {
    && r.known.sent - r.known.finished <= s.abandoned
    && forall w | 0 <= w < |r.workers| && !r.workers[w].Idle? :: WorkerFits(s, r.workers[w])
  }

  ghost predicate Fitting(s: State) {
    && s.abandoned <= ToSet(s.log.marks)
    && (forall e <- s.log.outs :: e.line !in s.abandoned && Fits(s.fates, e, true))
    && (forall e <- s.log.errs :: FitsError(s, e))
    && (s.run.Some? ==> RunFits(s, s.run.value))
  }

  // ---- one step ----

  /** Who holds a line holds it alone, and it has no result. */
  lemma HeldAlone(c: Config, s: State, w: nat)
    requires Inv(c, s) && s.run.Some? && !s.run.value.phase.Interrupting?
    requires w < |s.run.value.workers| && !s.run.value.workers[w].Idle?
    ensures var r := s.run.value;
            && r.workers[w].Line() !in AnsweredLines(s.log)
            && forall v | 0 <= v < |r.workers| && v != w && !r.workers[v].Idle? ::
                 r.workers[v].Line() != r.workers[w].Line()
  {
    var r := s.run.value;
    assert RunInv(c, ViewOf(s.log), r);
    assert WorkerInv(c, ViewOf(s.log), r, r.workers[w]);
    assert Apart(r.workers);
  }

  lemma Answers(l: Log, e: Entry)
    ensures e in l.outs || e in l.errs ==> e.line in AnsweredLines(l)
  {
    if e in l.outs {
      var k :| 0 <= k < |l.outs| && l.outs[k] == e;
      assert LinesOf(l.outs)[k] == e.line;
    }
    if e in l.errs {
      var k :| 0 <= k < |l.errs| && l.errs[k] == e;
      assert LinesOf(l.errs)[k] == e.line;
    }
  }

  /** The state with a new fate for a line that has no result. */
  lemma FateSet(s: State, n: nat, a: WorkStep)
    requires Fitting(s) && n !in AnsweredLines(s.log)
    ensures Fitting(s.(fates := Fated(s.fates, n, a), run := None))
  {
    var s' := s.(fates := Fated(s.fates, n, a), run := None);
    forall e <- s'.log.outs ensures Fits(s'.fates, e, true) {
      Answers(s.log, e);
    }
    forall e <- s'.log.errs ensures FitsError(s', e) {
      Answers(s.log, e);
    }
  }

  /** The worker's new state says what has just come of its line. */
  lemma NextFits(s: State, w: nat, a: WorkStep)
    requires s.run.Some? && CanWork(s.run.value, w, a) && !a.WriteResult? && WorkerFits(s, s.run.value.workers[w])
    ensures var r := s.run.value;
            WorkerFits(s.(fates := Fated(s.fates, r.workers[w].Line(), a)), NextWorker(r, w, a))
  {
  }

  lemma OthersFit(s: State, x: Worker, n: nat, a: WorkStep)
    requires WorkerFits(s, x) && x.Line() != n
    ensures WorkerFits(s.(fates := Fated(s.fates, n, a)), x)
  {
  }

  lemma SendFits(c: Config, s: State, w: nat, a: WorkStep)
    requires Inv(c, s) && Fitting(s) && Enabled(c, s, Work(w, a)) && !a.WriteResult?
    ensures Fitting(Do(c, s, Work(w, a)))
  {
    var r, s' := s.run.value, Do(c, s, Work(w, a));
    var n, r' := r.workers[w].Line(), s'.run.value;
    HeldAlone(c, s, w);
    FateSet(s, n, a);
    NextFits(s, w, a);
    assert s'.log.outs == s.log.outs && s'.log.errs == s.log.errs && s.log.marks <= s'.log.marks;
    forall v | 0 <= v < |r'.workers| && !r'.workers[v].Idle? ensures WorkerFits(s', r'.workers[v]) {
      if v != w {
        OthersFit(s, r.workers[v], n, a);
      }
    }
  }

  /** One more result that says what came of its line. */
  lemma ResultFits(s: State, e: Entry, ok: bool)
    requires Fitting(s) && (if ok then e.line !in s.abandoned && Fits(s.fates, e, true) else FitsError(s, e))
    ensures Fitting(s.(log := AddResult(s.log, e, ok), run := None))
  {
  }

  lemma WriteFits(c: Config, s: State, w: nat, a: WorkStep)
    requires Fitting(s) && Enabled(c, s, Work(w, a)) && a.WriteResult?
    ensures Fitting(Do(c, s, Work(w, a)))
  {
    var r, s' := s.run.value, Do(c, s, Work(w, a));
    var r' := s'.run.value;
    assert WorkerFits(s, r.workers[w]);
    ResultFits(s, r.workers[w].e, r.workers[w].ok);
    forall v | 0 <= v < |r'.workers| && !r'.workers[v].Idle? ensures WorkerFits(s', r'.workers[v]) {
      assert v != w && WorkerFits(s, r.workers[v]);
    }
  }

  /** A line that is handed out was never marked, so no run has found it in flight. */
  lemma HandOutFits(c: Config, s: State, w: nat)
    requires Inv(c, s) && Fitting(s) && Enabled(c, s, Dispatcher(HandOut(w)))
    ensures Fitting(Do(c, s, Dispatcher(HandOut(w))))
  {
    var r, s' := s.run.value, Do(c, s, Dispatcher(HandOut(w)));
    var n := r.order[r.phase.i];
    assert Ahead(ViewOf(s.log), r) && Phases(r);
    assert n !in ToSet(s.log.marks);
    forall v | 0 <= v < |s'.run.value.workers| && !s'.run.value.workers[v].Idle?
      ensures WorkerFits(s', s'.run.value.workers[v])
    {
      assert v != w ==> WorkerFits(s, r.workers[v]);
    }
  }

  lemma DispatchFits(c: Config, s: State, d: DispatchStep)
    requires Inv(c, s) && Fitting(s) && Enabled(c, s, Dispatcher(d))
    ensures Fitting(Do(c, s, Dispatcher(d)))
  {
    if d.HandOut? {
      HandOutFits(c, s, d.w);
    }
  }

  lemma LeftoverFits(c: Config, s: State, n: nat, rest: string, io: Write)
    requires Fitting(s) && s.run.Some? && Leftover(c, s.run.value, n)
    ensures Fitting(LeftoverWritten(s, n, rest, io))
  {
    ResultFits(s, Entry(n, Interrupted, rest), false);
  }

  lemma OpenFits(c: Config, s: State, k: nat, order: seq<nat>, known: Snapshot)
    requires Fitting(s) && CanTake(c, s, Open(k, order, known))
    ensures Fitting(Do(c, s, Open(k, order, known)))
  {
    var s' := Do(c, s, Open(k, order, known));
    forall e <- s'.log.outs ensures e.line !in s'.abandoned {
      Answers(s.log, e);
    }
    forall e <- s'.log.errs ensures FitsError(s', e) {
      Answers(s.log, e);
      assert FitsError(s, e);
    }
  }

  lemma KillFits(c: Config, s: State, tear: Tear)
    requires Fitting(s) && Enabled(c, s, Kill(tear))
    ensures Fitting(Do(c, s, Kill(tear)))
  {
    if Escaped(s, tear) {
      var r := s.run.value;
      match tear {
        case TearMark(w, _) => ToSetAppend(s.log.marks, r.workers[w].n);
        case TearResult(w, _) =>
          assert WorkerFits(s, r.workers[w]);
          ResultFits(s, r.workers[w].e, r.workers[w].ok);
        case TearLeftover(n, rest, _) => ResultFits(s, Entry(n, Interrupted, rest), false);
      }
    }
  }

  lemma WorkFits(c: Config, s: State, w: nat, a: WorkStep)
    requires Inv(c, s) && Fitting(s) && Enabled(c, s, Work(w, a))
    ensures Fitting(Do(c, s, Work(w, a)))
  {
    if a.WriteResult? {
      WriteFits(c, s, w, a);
    } else {
      SendFits(c, s, w, a);
    }
  }

  lemma ControlFits(c: Config, s: State, x: ControlStep)
    requires Fitting(s) && Enabled(c, s, Control(x))
    ensures Fitting(Do(c, s, Control(x)))
  {
    assert Controlled(s.run.value, x).workers == s.run.value.workers;
    assert RunFits(s, s.run.value);
  }

  lemma StepFits(c: Config, s: State, step: Step)
    requires Inv(c, s) && Fitting(s) && CanTake(c, s, step)
    ensures Fitting(Do(c, s, step))
  {
    match step {
      case Open(k, order, known) => OpenFits(c, s, k, order, known);
      case AnswerLeftover(n, rest, io) => LeftoverFits(c, s, n, rest, io);
      case Dispatcher(d) => DispatchFits(c, s, d);
      case Work(w, a) => WorkFits(c, s, w, a);
      case Kill(tear) => KillFits(c, s, tear);
      case Control(x) => ControlFits(c, s, x);
      case _ =>
    }
  }

  lemma {:induction false} HistoryFits(c: Config, d: Directory, evs: seq<Event>, d': Directory)
    requires Inv(c, d.s) && DiskInv(d) && Fitting(d.s) && History(c, d, evs, d')
    ensures Fitting(d'.s)
    decreases |evs|
  {
    if evs != [] {
      EventRefines(c, d, evs[0]);
      if evs[0].Take? {
        StepFits(c, d.s, evs[0].step);
      }
      HistoryFits(c, Apply(c, d, evs[0]), evs[1..], d');
    }
  }

  lemma AlwaysFits(c: Config, rd: Reader, evs: seq<Event>, d: Directory)
    requires History(c, Empty(rd), evs, d)
    ensures Fitting(d.s)
  {
    FromEmpty(c, rd, [], Empty(rd));
    HistoryFits(c, Empty(rd), evs, d);
  }

  // ---- what is on disk ----

  /** A whole line of the file is the text of this result. */
  ghost predicate HoldsLine(file: string, e: Entry) {
    EntryText(e) in Lines(Complete(file))
  }

  lemma TextsHeld(c: Config, d: Directory, e: Entry)
    requires Inv(c, d.s) && DiskInv(d)
    ensures e in d.s.log.outs ==> HoldsLine(d.f.out, e)
    ensures e in d.s.log.errs ==> HoldsLine(d.f.err, e)
  {
    var l := d.s.log;
    TallyTexts(d.reader, l.outs, {});
    TallyTexts(d.reader, l.errs, {});
    LinesRender(EntryTexts(l.outs));
    LinesRender(EntryTexts(l.errs));
    if e in l.outs {
      var k :| 0 <= k < |l.outs| && l.outs[k] == e;
      assert EntryTexts(l.outs)[k] == EntryText(e);
    }
    if e in l.errs {
      var k :| 0 <= k < |l.errs| && l.errs[k] == e;
      assert EntryTexts(l.errs)[k] == EntryText(e);
    }
  }

  /** The worker's request has left, or its answer can only be one that came back. */
  predicate OnTheWire(x: Worker) {
    x.InFlight? || x.Unlabelled? || (x.Answering? && x.ok)
  }

  /** Whatever is answered well, or may still be, was asked. */
  ghost predicate Asked(s: State) {
    && (forall e <- s.log.outs :: e.line in s.log.left)
    && (s.run.Some? ==>
          forall w | 0 <= w < |s.run.value.workers| && OnTheWire(s.run.value.workers[w]) ::
            s.run.value.workers[w].Line() in s.log.left)
  }

  lemma WorkAsks(c: Config, s: State, w: nat, a: WorkStep)
    requires Asked(s) && Enabled(c, s, Work(w, a))
    ensures Asked(Do(c, s, Work(w, a)))
  {
    var r := s.run.value;
    var l, r' := Logged(s.log, r, w, a), Worked(r, w, a);
    assert s.log.left <= l.left;
    forall v | 0 <= v < |r'.workers| && OnTheWire(r'.workers[v]) ensures r'.workers[v].Line() in l.left {
      if v == w {
        assert a.Leave? || OnTheWire(r.workers[w]);
      } else {
        assert r'.workers[v] == r.workers[v];
      }
    }
  }

  lemma StepAsks(c: Config, s: State, step: Step)
    requires Asked(s) && Enabled(c, s, step)
    ensures Asked(Do(c, s, step))
  {
    if step.Work? {
      WorkAsks(c, s, step.w, step.a);
    }
  }

  lemma {:induction false} HistoryAsks(c: Config, d: Directory, evs: seq<Event>, d': Directory)
    requires Asked(d.s) && History(c, d, evs, d')
    ensures Asked(d'.s)
    decreases |evs|
  {
    if evs != [] {
      if evs[0].Take? {
        StepAsks(c, d.s, evs[0].step);
      }
      HistoryAsks(c, Apply(c, d, evs[0]), evs[1..], d');
    }
  }

  lemma AskedOnce(c: Config, rd: Reader, evs: seq<Event>, d: Directory, e: Entry)
    requires History(c, Empty(rd), evs, d) && e in d.s.log.outs
    ensures multiset(d.s.log.left)[e.line] == 1
  {
    FromEmpty(c, rd, evs, d);
    HistoryAsks(c, Empty(rd), evs, d);
    OnceInDistinct(d.s.log.left, e.line);
  }

  lemma OutputEntry(c: Config, d: Directory, n: nat) returns (e: Entry)
    requires Inv(c, d.s) && DiskInv(d) && n in IdsOf(d.reader, Lines(Complete(d.f.out)))
    ensures e in d.s.log.outs && e.line == n && HoldsLine(d.f.out, e)
  {
    ResultsOnDisk(c, d);
    var k :| 0 <= k < |d.s.log.outs| && d.s.log.outs[k].line == n;
    e := d.s.log.outs[k];
    TextsHeld(c, d, e);
  }

  /** The output file holds answers and nothing else: the request of every line in it left, once, and came back
      with a 2xx, and what the file holds for it is that answer. */
  lemma OutputsAreAnswers(c: Config, rd: Reader, evs: seq<Event>, d: Directory, n: nat)
    requires History(c, Empty(rd), evs, d) && n in IdsOf(d.reader, Lines(Complete(d.f.out)))
    ensures multiset(d.s.log.left)[n] == 1 && n !in d.s.abandoned && Won(d.s.fates, n)
    ensures HoldsLine(d.f.out, Entry(n, Answered, d.s.fates[n].rest))
  {
    FromEmpty(c, rd, evs, d);
    AlwaysFits(c, rd, evs, d);
    var e := OutputEntry(c, d, n);
    AskedOnce(c, rd, evs, d, e);
    assert Fits(d.s.fates, e, true);
  }

  /** The error file holds every other result, under the code of what came of the line: no 2xx is in it, unless
      a later run found the line in flight. */
  lemma ErrorsAreExplained(c: Config, rd: Reader, evs: seq<Event>, d: Directory, n: nat) returns (e: Entry)
    requires History(c, Empty(rd), evs, d) && n in IdsOf(d.reader, Lines(Complete(d.f.err)))
    ensures e in d.s.log.errs && e.line == n && HoldsLine(d.f.err, e)
    ensures if n in d.s.abandoned then e.code == Interrupted else !Won(d.s.fates, n) && Fits(d.s.fates, e, false)
  {
    FromEmpty(c, rd, evs, d);
    AlwaysFits(c, rd, evs, d);
    ResultsOnDisk(c, d);
    var k :| 0 <= k < |d.s.log.errs| && d.s.log.errs[k].line == n;
    e := d.s.log.errs[k];
    TextsHeld(c, d, e);
  }

  // ---- a run that finished ----

  /** The run returned without an error and with nothing left to do. */
  predicate Done(o: Outcome) {
    !o.error && !o.cancelled && !o.resumable
  }

  /** After a run that finished, a line is in the output file exactly when its request came back with a 2xx and no
      run had to give it up; every other line is in the error file. */
  lemma DeliveredExactly(c: Config, rd: Reader, evs: seq<Event>, d: Directory, n: nat)
    requires History(c, Empty(rd), evs, d) && d.s.ended.Some? && Done(d.s.ended.value) && n < c.Total()
    ensures n in IdsOf(d.reader, Lines(Complete(d.f.out))) <==> Won(d.s.fates, n) && n !in d.s.abandoned
    ensures n in IdsOf(d.reader, Lines(Complete(d.f.err))) <==> !(Won(d.s.fates, n) && n !in d.s.abandoned)
  {
    FinishedRunAnswersAll(c, rd, evs, d, n);
    var outs, errs := IdsOf(d.reader, Lines(Complete(d.f.out))), IdsOf(d.reader, Lines(Complete(d.f.err)));
    assert multiset(ResultsOn(d))[n] == 1 && n in ResultsOn(d);
    if n in outs {
      OutputsAreAnswers(c, rd, evs, d, n);
    }
    if n in errs {
      var e := ErrorsAreExplained(c, rd, evs, d, n);
    }
  }

  /** Nothing was killed. */
  predicate Unkilled(evs: seq<Event>) {
    evs == [] || (!(evs[0].Take? && evs[0].step.Kill?) && Unkilled(evs[1..]))
  }

  /** No line has been left in flight. */
  ghost predicate Smooth(s: State) {
    s.failures == 0 ==>
      && s.abandoned == {}
      && (if s.run.None? then Unanswered(s.log) == {}
          else s.run.value.phase.Interrupting? ==> s.run.value.known.sent <= s.run.value.known.finished)
  }

  lemma ReturnSmooth(c: Config, s: State)
    requires Inv(c, s) && Smooth(s) && Enabled(c, s, Return)
    ensures Smooth(Do(c, s, Return))
  {
    var r := s.run.value;
    assert Behind(ViewOf(s.log), r) && Held(r.workers) == {} && |r.lost| <= s.failures;
  }

  lemma StopSmooth(c: Config, s: State, cancel: bool)
    requires Inv(c, s) && Smooth(s) && Enabled(c, s, StopBeforeReady(cancel))
    ensures Smooth(Do(c, s, StopBeforeReady(cancel)))
  {
    assert Leftovers(ViewOf(s.log), s.run.value);
  }

  lemma OpenSmooth(c: Config, s: State, k: nat, order: seq<nat>, known: Snapshot)
    requires Smooth(s) && CanTake(c, s, Open(k, order, known))
    ensures Smooth(Do(c, s, Open(k, order, known)))
  {
    if s.failures == 0 {
      forall n | n in known.sent ensures n in known.finished {
        assert n !in Unanswered(s.log);
      }
    }
  }

  /** A step of a run that goes on. */
  lemma RunningSmooth(c: Config, s: State, step: Step)
    requires Smooth(s) && Enabled(c, s, step) && (step.Dispatcher? || step.Work? || step.Control?)
    ensures Smooth(Do(c, s, step))
  {
  }

  lemma StepSmooth(c: Config, s: State, step: Step)
    requires Inv(c, s) && Smooth(s) && CanTake(c, s, step) && !step.Kill?
    ensures Smooth(Do(c, s, step))
  {
    match step {
      case Return => ReturnSmooth(c, s);
      case StopBeforeReady(cancel) => StopSmooth(c, s, cancel);
      case Open(k, order, known) => OpenSmooth(c, s, k, order, known);
      case AnswerLeftover(_, _, _) =>
      case _ => RunningSmooth(c, s, step);
    }
  }

  lemma {:induction false} HistorySmooth(c: Config, d: Directory, evs: seq<Event>, d': Directory)
    requires Inv(c, d.s) && DiskInv(d) && Smooth(d.s) && History(c, d, evs, d') && Unkilled(evs)
    ensures Smooth(d'.s)
    decreases |evs|
  {
    if evs != [] {
      EventRefines(c, d, evs[0]);
      if evs[0].Take? {
        StepSmooth(c, d.s, evs[0].step);
      }
      HistorySmooth(c, Apply(c, d, evs[0]), evs[1..], d');
    }
  }

  lemma NothingAbandoned(c: Config, rd: Reader, evs: seq<Event>, d: Directory)
    requires History(c, Empty(rd), evs, d) && Unkilled(evs) && d.s.failures == 0
    ensures d.s.abandoned == {}
  {
    FromEmpty(c, rd, [], Empty(rd));
    assert Unanswered(INIT.log) == {};
    HistorySmooth(c, Empty(rd), evs, d);
  }

  lemma NoErrors(c: Config, rd: Reader, evs: seq<Event>, d: Directory)
    requires History(c, Empty(rd), evs, d) && d.s.ended.Some? && Done(d.s.ended.value)
    requires d.s.abandoned == {} && forall n | 0 <= n < c.Total() :: Won(d.s.fates, n)
    ensures IdsOf(d.reader, Lines(Complete(d.f.err))) == []
  {
    var errs := IdsOf(d.reader, Lines(Complete(d.f.err)));
    if errs != [] {
      assert errs[0] in ResultsOn(d);
      OneResultPerLine(c, rd, evs, d, errs[0]);
      DeliveredExactly(c, rd, evs, d, errs[0]);
    }
  }

  lemma FilesOfLog(c: Config, d: Directory)
    requires Inv(c, d.s) && DiskInv(d)
    ensures |Lines(Complete(d.f.out))| == |IdsOf(d.reader, Lines(Complete(d.f.out)))|
    ensures IdsOf(d.reader, Lines(Complete(d.f.err))) == [] ==> Complete(d.f.err) == ""
  {
    ResultsOnDisk(c, d);
    TallyTexts(d.reader, d.s.log.outs, {});
    LinesRender(EntryTexts(d.s.log.outs));
  }

  /** The line's request came back with a 2xx, and the output file holds that answer. */
  ghost predicate Delivered(d: Directory, n: nat) {
    Won(d.s.fates, n) && HoldsLine(d.f.out, Entry(n, Answered, d.s.fates[n].rest))
  }

  /** Runs that were never killed and never failed to write a result, and whose requests all came back with a
      2xx, end with every line's answer in the output file, once, the error file empty and Completed = Total. */
  lemma AllWonAllDelivered(c: Config, rd: Reader, evs: seq<Event>, d: Directory)
    requires History(c, Empty(rd), evs, d) && Unkilled(evs) && d.s.failures == 0
    requires d.s.ended.Some? && Done(d.s.ended.value) && forall n | 0 <= n < c.Total() :: Won(d.s.fates, n)
    ensures d.s.ended.value.completed == c.Total() && d.s.ended.value.failed == 0
    ensures Complete(d.f.err) == "" && |Lines(Complete(d.f.out))| == c.Total()
    ensures forall n | 0 <= n < c.Total() :: Delivered(d, n)
  {
    FromEmpty(c, rd, evs, d);
    NothingAbandoned(c, rd, evs, d);
    forall n | 0 <= n < c.Total() ensures Delivered(d, n) {
      DeliveredExactly(c, rd, evs, d, n);
      OutputsAreAnswers(c, rd, evs, d, n);
    }
    NoErrors(c, rd, evs, d);
    FilesOfLog(c, d);
    FinishedRunAnswersAll(c, rd, evs, d, 0);
  }

  // ---- lines found in flight ----

  /** Once a run is past its leftovers, each of them is in the error file as interrupted and is not sent again. */
  lemma LeftoversInterrupted(c: Config, rd: Reader, evs: seq<Event>, d: Directory, n: nat) returns (e: Entry)
    requires History(c, Empty(rd), evs, d) && d.s.run.Some? && !d.s.run.value.phase.Interrupting?
    requires n in d.s.run.value.known.sent && n !in d.s.run.value.known.finished
    ensures e in d.s.log.errs && e.line == n && e.code == Interrupted && HoldsLine(d.f.err, e)
    ensures n !in Held(d.s.run.value.workers)
  {
    FromEmpty(c, rd, evs, d);
    AlwaysFits(c, rd, evs, d);
    var r, l := d.s.run.value, d.s.log;
    assert RunFits(d.s, r) && n in d.s.abandoned;
    assert Behind(ViewOf(l), r) && n in AnsweredLines(l);
    forall k | 0 <= k < |l.outs| ensures LinesOf(l.outs)[k] != n {
      assert l.outs[k] in l.outs;
    }
    var k :| 0 <= k < |l.errs| && LinesOf(l.errs)[k] == n;
    e := l.errs[k];
    TextsHeld(c, d, e);
  }
}
