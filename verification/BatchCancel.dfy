/** When a run returns as cancelled, read off the result files. */
module BatchCancel {
  import opened Text
  import opened RecordFile
  import opened BatchRun
  import opened BatchSafety
  import opened BatchDisk

  /** This run has written a line as cancelled. */
  ghost predicate WroteCancelled(l: Log, base: nat) {
    exists k | base <= k < |l.errs| :: l.errs[k].code == Cancelled
  }

  /** A worker is about to. */
  ghost predicate HoldsCancelled(ws: seq<Worker>) {
    exists w | 0 <= w < |ws| :: ws[w].Answering? && ws[w].e.code == Cancelled
  }

  /** What was noted as cancelled is written, or will be unless a write fails. */
  ghost predicate NotedShows(l: Log, r: Run) {
    if r.phase.Interrupting? then !r.noted
    else r.noted && !r.fatal ==> WroteCancelled(l, r.base) || HoldsCancelled(r.workers)
  }

  /** A dispatch that was cut off stopped before a line that no run had sent. */
  ghost predicate CutOff(r: Run) {
    r.cancelled ==> r.phase.Draining? && r.phase.i < |r.order| && !Skipped(r, r.order[r.phase.i])
  }

  ghost predicate Shows(s: State) {
    s.run.Some? ==> NotedShows(s.log, s.run.value) && CutOff(s.run.value)
  }

  lemma WroteMore(l: Log, base: nat, e: Entry, ok: bool)
    requires base <= |l.errs|
    ensures WroteCancelled(l, base) ==> WroteCancelled(AddResult(l, e, ok), base)
    ensures !ok && e.code == Cancelled ==> WroteCancelled(AddResult(l, e, ok), base)
  {
    var l' := AddResult(l, e, ok);
    if WroteCancelled(l, base) {
      var k :| base <= k < |l.errs| && l.errs[k].code == Cancelled;
      assert l'.errs[k] == l.errs[k];
    }
    if !ok && e.code == Cancelled {
      assert l'.errs[|l.errs|] == e;
    }
  }

  lemma HoldsMore(ws: seq<Worker>, w: nat, x: Worker)
    requires w < |ws| && HoldsCancelled(ws) && !(ws[w].Answering? && ws[w].e.code == Cancelled)
    ensures HoldsCancelled(ws[w := x])
  {
    var v :| 0 <= v < |ws| && ws[v].Answering? && ws[v].e.code == Cancelled;
    assert ws[w := x][v] == ws[v];
  }

  lemma WriteShows(l: Log, r: Run, w: nat, a: WorkStep)
    requires CanWork(r, w, a) && a.WriteResult? && NotedShows(l, r) && r.base <= |l.errs|
    requires r.workers[w].ok ==> r.workers[w].e.code == Answered
    ensures NotedShows(Logged(l, r, w, a), Worked(r, w, a))
  {
    var e, ok := r.workers[w].e, r.workers[w].ok;
    if a.io.Landed? {
      WroteMore(l, r.base, e, ok);
      assert Logged(l, r, w, a) == AddResult(l, e, ok) && Worked(r, w, a).workers == r.workers[w := Idle];
      if r.noted && HoldsCancelled(r.workers) && e.code != Cancelled {
        HoldsMore(r.workers, w, Idle);
      }
    }
  }

  lemma SendShows(l: Log, r: Run, w: nat, a: WorkStep)
    requires CanWork(r, w, a) && !a.WriteResult? && NotedShows(l, r)
    ensures NotedShows(Logged(l, r, w, a), Worked(r, w, a))
  {
    var x, r' := NextWorker(r, w, a), Worked(r, w, a);
    assert r'.workers[w] == x;
    assert Logged(l, r, w, a).errs == l.errs;
    if HoldsCancelled(r.workers) {
      HoldsMore(r.workers, w, x);
    }
  }

  lemma DispatchShows(c: Config, l: Log, r: Run, d: DispatchStep)
    requires CanDispatch(c, r, d) && NotedShows(l, r) && CutOff(r)
    requires !r.phase.Interrupting? ==> Phases(r)
    ensures NotedShows(l, Dispatched(c, l, r, d)) && CutOff(Dispatched(c, l, r, d))
  {
    if d.HandOut? && HoldsCancelled(r.workers) {
      HoldsMore(r.workers, d.w, Handed(r.order[r.phase.i]));
    }
  }

  /** What the steps below need of the invariant. */
  ghost predicate Grounded(s: State) {
    s.run.Some? ==>
      && s.run.value.base <= |s.log.errs|
      && (!s.run.value.phase.Interrupting? ==> Phases(s.run.value))
  }

  lemma InvGrounds(c: Config, s: State)
    requires Inv(c, s)
    ensures Grounded(s)
  {
  }

  lemma WorkKeepsCutOff(r: Run, w: nat, a: WorkStep)
    requires CanWork(r, w, a) && CutOff(r)
    ensures CutOff(Worked(r, w, a))
  {
  }

  lemma WorkShows(s: State, w: nat, a: WorkStep)
    requires Grounded(s) && ValidEntries(s) && Shows(s) && s.run.Some? && CanWork(s.run.value, w, a)
    ensures NotedShows(Logged(s.log, s.run.value, w, a), Worked(s.run.value, w, a)) && CutOff(Worked(s.run.value, w, a))
  {
    var l, r := s.log, s.run.value;
    WorkKeepsCutOff(r, w, a);
    if a.WriteResult? {
      WriteShows(l, r, w, a);
    } else {
      SendShows(l, r, w, a);
    }
  }

  lemma ControlShows(l: Log, r: Run, x: ControlStep)
    requires CanControl(r, x) && NotedShows(l, r) && CutOff(r)
    ensures NotedShows(l, Controlled(r, x)) && CutOff(Controlled(r, x))
  {
  }

  lemma StepShows(c: Config, s: State, step: Step)
    requires Grounded(s) && ValidEntries(s) && Shows(s) && Enabled(c, s, step)
    ensures Shows(Do(c, s, step))
  {
    match step
    case Work(w, a) => WorkShows(s, w, a);
    case Dispatcher(d) => DispatchShows(c, s.log, s.run.value, d);
    case Control(x) => ControlShows(s.log, s.run.value, x);
    case _ =>
  }

  lemma {:induction false} HistoryShows(c: Config, d: Directory, evs: seq<Event>, d': Directory)
    requires Inv(c, d.s) && DiskInv(d) && Shows(d.s) && History(c, d, evs, d')
    ensures Shows(d'.s)
    decreases |evs|
  {
    if evs != [] {
      EventRefines(c, d, evs[0]);
      if evs[0].Take? {
        InvGrounds(c, d.s);
        StepShows(c, d.s, evs[0].step);
      }
      HistoryShows(c, Apply(c, d, evs[0]), evs[1..], d');
    }
  }

  lemma AlwaysShows(c: Config, rd: Reader, evs: seq<Event>, d: Directory)
    requires History(c, Empty(rd), evs, d)
    ensures Shows(d.s)
  {
    FromEmpty(c, rd, [], Empty(rd));
    HistoryShows(c, Empty(rd), evs, d);
  }

  /** Some line has no result yet. */
  ghost predicate SomeLeft(c: Config, d: Directory) {
    exists n: nat | n < c.Total() :: n !in ResultsOn(d)
  }

  lemma CutOffUnanswered(c: Config, v: View, r: Run)
    requires RunInv(c, v, r) && CutOff(r) && Finished(r) && !r.fatal
    ensures r.cancelled <==> exists n: nat | n < c.Total() :: n !in v.answered
  {
    if r.cancelled {
      assert Ahead(v, r) && r.order[r.phase.i] < c.Total() && r.order[r.phase.i] !in v.answered;
    } else {
      AllAnswered(c, v, r);
    }
  }

  /** A dispatch that ran to its end leaves no line, one that was cut off does. */
  lemma CutOffLeaves(c: Config, d: Directory)
    requires Inv(c, d.s) && DiskInv(d) && Shows(d.s) && Enabled(c, d.s, Return) && !d.s.run.value.fatal
    ensures d.s.run.value.cancelled <==> SomeLeft(c, d)
  {
    CutOffUnanswered(c, ViewOf(d.s.log), d.s.run.value);
    ResultsAreAnswered(c, d);
  }

  /** What was noted as cancelled is in the error file by then, and nothing else is there as cancelled. */
  lemma NotedIsWritten(c: Config, s: State)
    requires Inv(c, s) && Shows(s) && Enabled(c, s, Return) && !s.run.value.fatal
    ensures s.run.value.noted <==> WroteCancelled(s.log, s.run.value.base)
  {
    var l, r := s.log, s.run.value;
    assert !HoldsCancelled(r.workers);
    assert Written(l, s.failures, r);
    if WroteCancelled(l, r.base) {
      var k :| r.base <= k < |l.errs| && l.errs[k].code == Cancelled;
      assert Labelled(r, l.errs[k]);
    }
  }

  /** What a run that is about to return shows of its flags. */
  lemma FlagsShow(c: Config, rd: Reader, evs: seq<Event>, d: Directory)
    requires History(c, Empty(rd), evs, d) && Enabled(c, d.s, Return) && !d.s.run.value.fatal
    ensures var r := d.s.run.value;
            && (r.cancelled <==> SomeLeft(c, d))
            && (r.noted <==> WroteCancelled(d.s.log, r.base))
            && (r.cancelled ==> r.stopped)
  {
    FromEmpty(c, rd, evs, d);
    AlwaysShows(c, rd, evs, d);
    CutOffLeaves(c, d);
    NotedIsWritten(c, d.s);
    assert Stopping(d.s.run.value);
  }

  /** The run was not ready yet, or some line has no result, or it wrote some line as cancelled. */
  ghost predicate Unfinished(c: Config, d: Directory, step: Step)
    requires d.s.run.Some?
  {
    step.StopBeforeReady? || SomeLeft(c, d) || WroteCancelled(d.s.log, d.s.run.value.base)
  }

  /** A run without an error returns as cancelled exactly when its context ended by a cancel and left it unfinished. */
  lemma CancelledExactly(c: Config, rd: Reader, evs: seq<Event>, d: Directory, step: Step, o: Outcome)
    requires History(c, Empty(rd), evs, d) && (step.Return? || step.StopBeforeReady?) && Enabled(c, d.s, step)
    requires !d.s.run.value.fatal && Do(c, d.s, step).ended == Some(o)
    ensures o.cancelled <==> o.stopped && o.cancelStop && Unfinished(c, d, step)
  {
    if step.Return? {
      FlagsShow(c, rd, evs, d);
    }
  }
}
