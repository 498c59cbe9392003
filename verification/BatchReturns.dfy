/**
 That a run of the batch runner comes to its end (internal/batch/batch.go): it is never stuck, it takes a
 bounded number of steps, and it returns an error exactly when one of its result writes failed.
 */
module BatchReturns {
  import opened Text
  import opened RecordFile
  import opened DispatchOrder
  import opened BatchRun
  import opened BatchSafety
  import opened BatchDisk

  // ---- never stuck ----

  /** A step the run takes by itself: not a kill, not the end of its context. */
  predicate OwnStep(step: Step) {
    !step.Open? && !step.Kill? && !(step.Control? && !step.x.Judge?)
  }

  function NextOf(x: Worker): WorkStep {
    match x
    case Handed(_) => Mark
    case Marked(_) => Leave
    case InFlight(_) => AnswerUnreadable("}")
    case Unlabelled(_) => FailSecond("}")
    case _ => WriteResult(Landed)
  }

  lemma WorkerGoesOn(r: Run, w: nat)
    requires !r.phase.Interrupting? && w < |r.workers| && !r.workers[w].Idle?
    ensures CanWork(r, w, NextOf(r.workers[w]))
  {
    assert ValidRest("}");
  }

  lemma InterruptingGoesOn(c: Config, s: State) returns (step: Step)
    requires s.run.Some? && s.run.value.phase.Interrupting?
    ensures OwnStep(step) && Enabled(c, s, step)
  {
    var r := s.run.value;
    if n :| Leftover(c, r, n) {
      assert ValidRest("}");
      step := AnswerLeftover(n, "}", Landed);
    } else {
      step := Dispatcher(Begin);
    }
  }

  lemma DispatchGoesOn(c: Config, s: State) returns (step: Step)
    requires s.run.Some? && s.run.value.phase.Dispatching?
    ensures OwnStep(step) && Enabled(c, s, step)
  {
    var r := s.run.value;
    var i := r.phase.i;
    step := Dispatcher(if i >= |r.order| then LeaveDispatch(false)
                       else if Skipped(r, r.order[i]) then Skip
                       else if r.stopped then LeaveDispatch(true)
                       else Look);
  }

  lemma WaitGoesOn(c: Config, s: State) returns (step: Step)
    requires s.run.Some? && (s.run.value.phase.Selecting? || s.run.value.phase.Draining?)
    requires s.run.value.phase.Selecting? ==> s.run.value.phase.i < |s.run.value.order|
    requires s.run.value.workers != []
    ensures OwnStep(step) && Enabled(c, s, step)
  {
    var r := s.run.value;
    if w :| 0 <= w < |r.workers| && !r.workers[w].Idle? {
      WorkerGoesOn(r, w);
      step := Work(w, NextOf(r.workers[w]));
    } else if r.phase.Selecting? {
      step := Dispatcher(HandOut(0));
    } else if r.stopped && r.verdict.None? {
      step := Control(Judge(true));
    } else {
      step := Return;
    }
  }

  /** Until it returns, a run has something it can do, whatever happened before. */
  lemma NeverStuck(c: Config, rd: Reader, evs: seq<Event>, d: Directory) returns (step: Step)
    requires History(c, Empty(rd), evs, d) && d.s.run.Some?
    ensures OwnStep(step) && Enabled(c, d.s, step)
  {
    FromEmpty(c, rd, evs, d);
    var r := d.s.run.value;
    assert RunInv(c, ViewOf(d.s.log), r) && Static(c, r);
    match r.phase {
      case Interrupting => step := InterruptingGoesOn(c, d.s);
      case Dispatching(_) => step := DispatchGoesOn(c, d.s);
      case _ => step := WaitGoesOn(c, d.s);
    }
  }

  // ---- a bounded number of steps ----

  /** How far a worker is from being idle again. */
  function Ahead(x: Worker): nat {
    match x
    case Idle => 0
    case Answering(_, _) => 1
    case Unlabelled(_) => 2
    case InFlight(_) => 3
    case Marked(_) => 4
    case Handed(_) => 5
  }

  function AllAhead(ws: seq<Worker>): nat {
    if ws == [] then 0 else AllAhead(ws[..|ws| - 1]) + Ahead(ws[|ws| - 1])
  }

  lemma {:induction false} AheadUpdate(ws: seq<Worker>, w: nat, x: Worker)
    requires w < |ws|
    ensures AllAhead(ws[w := x]) == AllAhead(ws) - Ahead(ws[w]) + Ahead(x)
  {
    var init := ws[..|ws| - 1];
    if w == |init| {
      assert ws[w := x][..|ws| - 1] == init;
    } else {
      AheadUpdate(init, w, x);
      assert ws[w := x][..|ws| - 1] == init[w := x];
    }
  }

  /** An upper bound on the steps a run has left to take. */
  function Left(r: Run): nat {
    var n := |r.order|;
    AllAhead(r.workers) +
    match r.phase
    case Interrupting => 8 * n + 3 + |r.known.sent - r.interrupted|
    case Dispatching(i) => if i <= n then 8 * (n - i) + 2 else 2
    case Selecting(i) => if i <= n then 8 * (n - i) + 1 else 1
    case Draining(_) => 0
  }

  /** A step that brings the run closer to its end. */
  predicate Moves(step: Step) {
    step.AnswerLeftover? || step.Dispatcher? || step.Work?
  }

  lemma NextAhead(r: Run, w: nat, a: WorkStep)
    requires CanWork(r, w, a)
    ensures Ahead(NextWorker(r, w, a)) < Ahead(r.workers[w])
  {
  }

  predicate SameCourse(r: Run, r': Run) {
    r'.phase == r.phase && r'.order == r.order && r'.known == r.known && r'.interrupted == r.interrupted
  }

  lemma CountedCourse(r: Run, n: nat, ok: bool, io: Write)
    ensures SameCourse(r, Counted(r, n, ok, io))
  {
  }

  lemma WorkCourse(r: Run, w: nat, a: WorkStep)
    requires CanWork(r, w, a)
    ensures SameCourse(r, Flags(r, w, a))
  {
    if a.WriteResult? {
      CountedCourse(r, r.workers[w].e.line, r.workers[w].ok, a.io);
    }
  }

  lemma WorkMoves(r: Run, w: nat, a: WorkStep)
    requires CanWork(r, w, a)
    ensures Left(Worked(r, w, a)) < Left(r)
  {
    NextAhead(r, w, a);
    WorkCourse(r, w, a);
    AheadUpdate(r.workers, w, NextWorker(r, w, a));
  }

  lemma DispatchMoves(c: Config, l: Log, r: Run, d: DispatchStep)
    requires CanDispatch(c, r, d)
    ensures Left(Dispatched(c, l, r, d)) < Left(r)
  {
    if d.HandOut? {
      AheadUpdate(r.workers, d.w, Handed(r.order[r.phase.i]));
    }
  }

  lemma LeftoverMoves(c: Config, r: Run, n: nat)
    requires r.phase.Interrupting? && Leftover(c, r, n)
    ensures Left(r.(failed := r.failed + 1, interrupted := r.interrupted + {n})) < Left(r)
  {
    var todo := r.known.sent - r.interrupted;
    assert r.known.sent - (r.interrupted + {n}) == todo - {n};
  }

  /** The runs before and after a step, when it is not the last. */
  ghost function RunAfter(c: Config, s: State, step: Step): Run
    requires Moves(step) && Enabled(c, s, step)
  {
    var r := s.run.value;
    match step
    case AnswerLeftover(n, _, _) => r.(failed := r.failed + 1, interrupted := r.interrupted + {n})
    case Dispatcher(d) => Dispatched(c, s.log, r, d)
    case Work(w, a) => Worked(r, w, a)
  }

  lemma MoveCounts(c: Config, s: State, step: Step)
    requires Moves(step) && Enabled(c, s, step)
    ensures Left(RunAfter(c, s, step)) < Left(s.run.value)
  {
    match step {
      case AnswerLeftover(n, _, _) => LeftoverMoves(c, s.run.value, n);
      case Dispatcher(d) => DispatchMoves(c, s.log, s.run.value, d);
      case Work(w, a) => WorkMoves(s.run.value, w, a);
    }
  }

  /** Every move counts, and nothing else adds to what is left. */
  lemma StepCounts(c: Config, s: State, step: Step)
    requires s.run.Some? && Enabled(c, s, step) && Do(c, s, step).run.Some?
    ensures Left(Do(c, s, step).run.value) + (if Moves(step) then 1 else 0) <= Left(s.run.value)
  {
    if Moves(step) {
      MoveCounts(c, s, step);
      assert Do(c, s, step).run.value == RunAfter(c, s, step);
    } else {
      assert step.Control?;
    }
  }

  function MovesIn(evs: seq<Event>): nat {
    if evs == [] then 0 else (if evs[0].Take? && Moves(evs[0].step) then 1 else 0) + MovesIn(evs[1..])
  }

  /** The events are all of one run. */
  predicate OneRun(evs: seq<Event>) {
    forall i | 0 <= i < |evs| :: evs[i].Take? && !evs[i].step.Open?
  }

  lemma EndedStays(c: Config, d: Directory, evs: seq<Event>, d': Directory)
    requires History(c, d, evs, d') && d.s.run.None? && OneRun(evs)
    ensures d'.s.run.None?
    decreases |evs|
  {
    if evs != [] {
      EndedStays(c, Apply(c, d, evs[0]), evs[1..], d');
    }
  }

  lemma {:induction false} RunCounts(c: Config, d: Directory, evs: seq<Event>, d': Directory)
    requires History(c, d, evs, d') && d.s.run.Some? && d'.s.run.Some? && OneRun(evs)
    ensures Left(d'.s.run.value) + MovesIn(evs) <= Left(d.s.run.value)
    decreases |evs|
  {
    if evs != [] {
      var m := Apply(c, d, evs[0]);
      if m.s.run.None? {
        EndedStays(c, m, evs[1..], d');
      } else {
        StepCounts(c, d.s, evs[0].step);
        RunCounts(c, m, evs[1..], d');
      }
    }
  }

  lemma {:induction false} AllIdle(k: nat)
    ensures AllAhead(seq(k, _ => Idle)) == 0
  {
    if 0 < k {
      AllIdle(k - 1);
      assert seq(k, _ => Idle)[..k - 1] == seq(k - 1, _ => Idle);
    }
  }

  /** What is left when a run opens. */
  lemma LeftAtOpen(c: Config, d: Directory, k: nat, order: seq<nat>, known: Snapshot)
    requires Inv(c, d.s) && DiskInv(d) && Possible(c, d, Take(Open(k, order, known)))
    ensures Left(OpenRun(k, order, known, d.s.failures)) <= 9 * c.Total() + 3
  {
    OpenReadsLog(c, d);
    AllIdle(k);
    Opens(c, d.s.log, d.s.failures, k, order);
    assert Permutation(order, c.Total());
    SubsetSize(known.sent - {}, Below(c.Total()));
  }

  /** A run that has not returned has taken at most 9 * Total + 3 steps towards its end, whatever its workers,
      its stops and its failures. */
  lemma ReturnsInTime(c: Config, rd: Reader, before: seq<Event>, d: Directory, open: Event,
                      evs: seq<Event>, d': Directory)
    requires History(c, Empty(rd), before, d) && open.Take? && open.step.Open? && Possible(c, d, open)
    requires History(c, Apply(c, d, open), evs, d') && OneRun(evs) && d'.s.run.Some?
    ensures MovesIn(evs) <= 9 * c.Total() + 3
  {
    FromEmpty(c, rd, before, d);
    LeftAtOpen(c, d, open.step.concurrency, open.step.order, open.step.known);
    RunCounts(c, Apply(c, d, open), evs, d');
  }

  // ---- what it returns ----

  /** A record write has failed exactly when one has since the run opened. */
  ghost predicate FatalShows(s: State) {
    s.run.Some? ==> s.run.value.before <= s.failures && (s.run.value.fatal <==> s.run.value.before < s.failures)
  }

  lemma CountedShowsFatal(r: Run, n: nat, ok: bool, io: Write)
    ensures Counted(r, n, ok, io).before == r.before && Counted(r, n, ok, io).fatal == (r.fatal || !io.Landed?)
  {
  }

  lemma WorkShowsFatal(r: Run, w: nat, a: WorkStep)
    requires CanWork(r, w, a)
    ensures var r' := Worked(r, w, a);
            r'.before == r.before && r'.fatal == (r.fatal || (a.WriteResult? && !a.io.Landed?))
  {
    if a.WriteResult? {
      CountedShowsFatal(r, r.workers[w].e.line, r.workers[w].ok, a.io);
    }
  }

  lemma StepShowsFatal(c: Config, s: State, step: Step)
    requires FatalShows(s) && Enabled(c, s, step)
    ensures FatalShows(Do(c, s, step))
  {
    if step.Work? {
      WorkShowsFatal(s.run.value, step.w, step.a);
    }
  }

  lemma {:induction false} HistoryShowsFatal(c: Config, d: Directory, evs: seq<Event>, d': Directory)
    requires FatalShows(d.s) && History(c, d, evs, d')
    ensures FatalShows(d'.s)
    decreases |evs|
  {
    if evs != [] {
      if evs[0].Take? {
        StepShowsFatal(c, d.s, evs[0].step);
      }
      HistoryShowsFatal(c, Apply(c, d, evs[0]), evs[1..], d');
    }
  }

  /** Only these steps end a run with a result. */
  lemma Ends(c: Config, s: State, step: Step)
    requires s.run.Some? && s.ended.None? && Enabled(c, s, step) && Do(c, s, step).ended.Some?
    ensures step.Return? || step.StopBeforeReady? || (step.AnswerLeftover? && !step.io.Landed?)
  {
  }

  lemma OutcomeTells(c: Config, s: State, step: Step, o: Outcome)
    requires s.run.Some? && FatalShows(s) && Enabled(c, s, step) && Do(c, s, step).ended == Some(o)
    requires step.Return? || step.StopBeforeReady? || (step.AnswerLeftover? && !step.io.Landed?)
    ensures o.error <==> s.run.value.before < Do(c, s, step).failures
    ensures o.stopped <==> s.run.value.stopped
    ensures o.completed == s.run.value.completed && o.failed == s.run.value.failed
  {
  }

  lemma VerdictTells(c: Config, s: State, step: Step, o: Outcome)
    requires s.run.Some? && Stopping(s.run.value) && Enabled(c, s, step) && Do(c, s, step).ended == Some(o)
    ensures step.Return? ==> (o.cancelStop <==> s.run.value.verdict == Some(true))
    ensures step.StopBeforeReady? ==> o.cancelStop == step.cancel
  {
  }

  lemma RunStopping(c: Config, s: State)
    requires Inv(c, s) && s.run.Some?
    ensures Stopping(s.run.value) && s.ended.None?
  {
  }

  /** A run returns an error exactly when one of its own result writes failed, and says what it counted, whether
      its context had ended and what the stop was judged to be. */
  lemma ErrorExactly(c: Config, rd: Reader, evs: seq<Event>, d: Directory, step: Step, o: Outcome)
    requires History(c, Empty(rd), evs, d) && d.s.run.Some? && Enabled(c, d.s, step)
    requires Do(c, d.s, step).ended == Some(o)
    ensures o.error <==> d.s.run.value.before < Do(c, d.s, step).failures
    ensures o.stopped <==> d.s.run.value.stopped
    ensures o.completed == d.s.run.value.completed && o.failed == d.s.run.value.failed
    ensures step.Return? ==> (o.cancelStop <==> d.s.run.value.verdict == Some(true))
    ensures step.StopBeforeReady? ==> o.cancelStop == step.cancel
  {
    FromEmpty(c, rd, evs, d);
    HistoryShowsFatal(c, Empty(rd), evs, d);
    RunStopping(c, d.s);
    Ends(c, d.s, step);
    OutcomeTells(c, d.s, step, o);
    VerdictTells(c, d.s, step, o);
  }
}
