/**
 What the supervisor does about a process that is down (internal/agent/supervisor.go), in every run of a
 record: it relaunches until there is a reason not to, it is never stuck, and it leaves nothing unattended.
 */
module SupervisorRestarts {
  import opened Supervisor
  import opened SupervisorSafety
  import opened SupervisorStatus

  // ---- the counter ----

  function NextCount(k: nat, step: Step): nat {
    match step
    case Supervise(Wake) => k + 1
    case Supervise(Settle(stable)) => if stable then 0 else k
    case _ => k
  }

  /** The restart count after the steps, from `k`: one more for every relaunch, none after a stable generation. */
  function Relaunches(k: nat, steps: seq<Step>): nat
    decreases |steps|
  {
    if steps == [] then k else Relaunches(NextCount(k, steps[0]), steps[1..])
  }

  /** What the count depends on of the invariant. */
  predicate InStep(s: State) {
    && (s.pc.Deciding? || s.pc.Sleeping? ==> s.pc.k == s.restarts)
    && (s.pc.Supervising? ==> s.pc.g == s.generation)
  }

  lemma InvInStep(spec: Spec, s: State)
    requires Inv(spec, s)
    ensures InStep(s)
  {
  }

  lemma SuperviseCounts(spec: Spec, s: State, v: SuperviseStep)
    requires InStep(s) && CanSupervise(s, v) && !s.stopping
    ensures Supervised(spec, s, v).restarts == NextCount(s.restarts, Supervise(v))
  {
  }

  /** No step but those of the restart logic changes the count. */
  lemma OthersKeepCount(spec: Spec, s: State, step: Step)
    requires Enabled(s, step) && !step.Supervise?
    ensures Do(spec, s, step).restarts == s.restarts
  {
  }

  lemma StopIsKept(spec: Spec, s: State, step: Step)
    requires Enabled(s, step) && s.stopping
    ensures Do(spec, s, step).stopping
  {
    FrozenStep(spec, s, step);
  }

  lemma StepCounts(spec: Spec, s: State, step: Step)
    requires InStep(s) && Enabled(s, step) && !Do(spec, s, step).stopping
    ensures !s.stopping && Do(spec, s, step).restarts == NextCount(s.restarts, step)
  {
    if s.stopping {
      StopIsKept(spec, s, step);
    }
    if step.Supervise? {
      SuperviseCounts(spec, s, step.v);
    } else {
      OthersKeepCount(spec, s, step);
    }
  }

  lemma {:induction false} RunCounts(spec: Spec, s: State, steps: seq<Step>, s': State)
    requires Inv(spec, s) && Reaches(spec, s, steps, s') && !s'.stopping
    ensures !s.stopping && s'.restarts == Relaunches(s.restarts, steps)
    decreases |steps|
  {
    if steps != [] {
      InvInStep(spec, s);
      StepKeepsInv(spec, s, steps[0]);
      RunCounts(spec, Do(spec, s, steps[0]), steps[1..], s');
      StepCounts(spec, s, steps[0]);
    }
  }

  /** Until a Stop, the restart count is the number of relaunches since the last stable generation. */
  lemma CountsRelaunches(spec: Spec, steps: seq<Step>, s: State)
    requires Reaches(spec, INIT, steps, s) && !s.stopping
    ensures s.restarts == Relaunches(0, steps)
  {
    RunCounts(spec, INIT, steps, s);
  }

  // ---- why a record is over ----

  /** The launch path has given a launch up. */
  ghost predicate GaveUp(steps: seq<Step>) {
    exists i | 0 <= i < |steps| :: steps[i].Launch? && steps[i].l.GiveUp?
  }

  /** The generation that exited was the last: no restart is wanted, or the budget is spent. */
  predicate LastExit(spec: Spec, s: State) {
    if spec.restart then s.status == Crashloop && 0 < spec.maxRestarts == s.restarts
    else s.status == (if s.exitErr then Failed else Stopped) && s.attempts == 1
  }

  predicate LastReaped(s: State) {
    s.reapers != [] && s.reapers[|s.reapers| - 1].Closed?
  }

  /** The exit of the current generation is not on record yet. */
  predicate Unnoted(s: State) {
    s.reapers != [] && (s.reapers[|s.reapers| - 1].Waiting? || s.reapers[|s.reapers| - 1].Waited?)
  }

  /** Where the path is, by whether a launch was given up. */
  ghost predicate Reasoned(spec: Spec, s: State, gaveUp: bool) {
    && 1 <= s.attempts && (spec.restart || (s.attempts == 1 && !s.pc.Sleeping?))
    && (gaveUp ==> s.pc.Over? || s.pc.Reporting?)
    && (s.pc.Deciding? ==> LastReaped(s))
    && (s.pending ==> Relaunching(s) || gaveUp)
    && (Unnoted(s) ==> !s.exitErr)
    && (s.pc.Reporting? ==> gaveUp && s.attempts > 1)
    && (s.pc.Over? && !s.stopping && !gaveUp ==> LastExit(spec, s) && LastReaped(s))
    && (s.pc.Over? && !s.stopping && gaveUp && s.attempts > 1 ==> s.status == Failed)
  }

  lemma LaunchReasons(spec: Spec, s: State, l: LaunchStep, gaveUp: bool)
    requires Reasoned(spec, s, gaveUp) && CanLaunch(s, l)
    ensures Reasoned(spec, Launched(s, l), gaveUp || l.GiveUp?)
  {
  }

  lemma ReapReasons(spec: Spec, s: State, g: nat, r: ReapStep, gaveUp: bool)
    requires Inv(spec, s) && Reasoned(spec, s, gaveUp) && CanReap(s, g, r)
    ensures Reasoned(spec, Reaping(s, g, r), gaveUp)
  {
  }

  lemma SuperviseReasons(spec: Spec, s: State, v: SuperviseStep, gaveUp: bool)
    requires Inv(spec, s) && Told(spec, s) && Reasoned(spec, s, gaveUp) && CanSupervise(s, v)
    ensures Reasoned(spec, Supervised(spec, s, v), gaveUp)
  {
  }

  lemma StopReasons(spec: Spec, s: State, i: nat, t: StopStep, gaveUp: bool)
    requires s.stopping && Reasoned(spec, s, gaveUp) && CanStop(s, i, t)
    ensures Reasoned(spec, StopContinued(s, i, t), gaveUp)
  {
  }

  lemma OtherReasons(spec: Spec, s: State, step: Step, gaveUp: bool)
    requires Reasoned(spec, s, gaveUp) && Enabled(s, step) && (step.ReapOrphan? || step.StopBegins? || step.Exit?)
    ensures Reasoned(spec, Do(spec, s, step), gaveUp)
  {
  }

  lemma StepReasons(spec: Spec, s: State, step: Step, gaveUp: bool)
    requires Inv(spec, s) && Told(spec, s) && Reasoned(spec, s, gaveUp) && Enabled(s, step)
    ensures Reasoned(spec, Do(spec, s, step), gaveUp || (step.Launch? && step.l.GiveUp?))
  {
    match step {
      case Launch(l) => LaunchReasons(spec, s, l, gaveUp);
      case Reap(g, r) => ReapReasons(spec, s, g, r, gaveUp);
      case Supervise(v) => SuperviseReasons(spec, s, v, gaveUp);
      case Stop(i, t) =>
        assert Stops(s);
        StopReasons(spec, s, i, t, gaveUp);
      case _ => OtherReasons(spec, s, step, gaveUp);
    }
  }

  lemma {:induction false} RunReasons(spec: Spec, s: State, steps: seq<Step>, s': State, gaveUp: bool)
    requires Inv(spec, s) && Told(spec, s) && Reasoned(spec, s, gaveUp) && Reaches(spec, s, steps, s')
    ensures Reasoned(spec, s', gaveUp || GaveUp(steps))
    decreases |steps|
  {
    if steps != [] {
      var now := gaveUp || (steps[0].Launch? && steps[0].l.GiveUp?);
      StepReasons(spec, s, steps[0], gaveUp);
      StepTells(spec, s, steps[0]);
      StepKeepsInv(spec, s, steps[0]);
      RunReasons(spec, Do(spec, s, steps[0]), steps[1..], s', now);
      assert forall i | 1 <= i < |steps| :: steps[i] == steps[1..][i - 1];
    }
  }

  /**
   A record that is over without a Stop has a reason: a launch was given up, or the last generation exited
   and no restart is wanted, or the restart budget is spent. So a process that exits is relaunched as long as
   there is none of these, and for good when MaxRestarts is not positive.
   */
  lemma OverBecause(spec: Spec, steps: seq<Step>, s: State)
    requires Reaches(spec, INIT, steps, s) && s.pc.Over? && !s.stopping
    ensures GaveUp(steps) || LastExit(spec, s)
    ensures GaveUp(steps) && s.attempts > 1 ==> s.status == Failed
    ensures spec.restart && spec.maxRestarts <= 0 ==> GaveUp(steps)
  {
    ReachableInv(spec, [], INIT);
    RunReasons(spec, INIT, steps, s, false);
  }

  /** A restart that is announced is on its way, Stop or no Stop, unless its launch was given up; and no failed
      exit is on record before the current generation's own. */
  lemma RecordIsCurrent(spec: Spec, steps: seq<Step>, s: State)
    requires Reaches(spec, INIT, steps, s)
    ensures s.pending ==> Relaunching(s) || GaveUp(steps)
    ensures Unnoted(s) ==> !s.exitErr
  {
    ReachableInv(spec, [], INIT);
    RunReasons(spec, INIT, steps, s, false);
  }

  // ---- never stuck ----

  /** A step the record's own goroutines take: the launch path, the restart logic, a reaper. */
  ghost predicate CanGoOn(s: State) {
    || (exists l :: CanLaunch(s, l))
    || (exists v :: CanSupervise(s, v))
    || (exists r :: CanReap(s, s.generation, r))
  }

  lemma ReaperGoesOn(spec: Spec, s: State)
    requires Inv(spec, s) && s.pc.Supervising?
    ensures CanGoOn(s) || (|s.published| == s.generation > 0 && s.published[s.generation - 1] < |s.children| &&
                           s.children[s.published[s.generation - 1]].alive)
  {
    var g := s.generation;
    match s.reapers[g - 1] {
      case Waiting => assert !s.children[s.published[g - 1]].alive ==> CanReap(s, g, Collect(true));
      case Waited(_) => assert CanReap(s, g, Note);
      case Noted => assert CanReap(s, g, Close);
      case Closed => assert CanSupervise(s, Settle(true));
    }
  }

  /** Until it is over, a record can go on by itself, or its generation is ready and its process alive. */
  lemma NeverStuck(spec: Spec, steps: seq<Step>, s: State)
    requires Reaches(spec, INIT, steps, s) && !s.pc.Over?
    ensures CanGoOn(s) || (s.pc.Supervising? && |s.published| == s.generation > 0 &&
                           s.published[s.generation - 1] < |s.children| &&
                           s.children[s.published[s.generation - 1]].alive)
  {
    ReachableInv(spec, steps, s);
    match s.pc {
      case Spawning => assert CanLaunch(s, SpawnOk);
      case Spawned(_) => assert CanLaunch(s, TakeLock);
      case Doomed(_) => assert CanLaunch(s, KillDoomed);
      case Probing(_) => assert CanLaunch(s, ProbeOk);
      case ProbeFailed(_) => assert CanLaunch(s, CancelProbed);
      case LaunchFailed => assert CanLaunch(s, GiveUp(true));
      case Reporting => assert CanLaunch(s, Report);
      case Deciding(_) => assert CanSupervise(s, Decide);
      case Sleeping(_) => assert CanSupervise(s, Wake);
      case Supervising(g) => ReaperGoesOn(spec, s);
    }
  }

  // ---- nothing is left unattended ----

  /** The launch path or the restart logic is concerned with the current generation. */
  predicate Watching(pc: Pc) {
    pc.Probing? || pc.ProbeFailed? || pc.Supervising?
  }

  ghost predicate Attended(s: State) {
    s.generation > 0 && !Watching(s.pc) ==> PutDown(s, s.generation)
  }

  /** A launch step other than a publication keeps the generation where it is. */
  lemma LaunchPutsDown(s: State, l: LaunchStep)
    requires CanLaunch(s, l) && !(l.TakeLock? && !s.stopping) && PutDown(s, s.generation)
    ensures PutDown(Launched(s, l), s.generation)
  {
  }

  lemma CancelAttends(s: State)
    requires Named(s) && CanLaunch(s, CancelProbed)
    ensures Attended(Launched(s, CancelProbed))
  {
    assert s.generation > 0 ==> s.published[s.generation - 1] < |s.children|;
  }

  lemma ProbeAttends(s: State, l: LaunchStep)
    requires CanLaunch(s, l) && (l.ProbeOk? || l.ProbeFails? || (l.TakeLock? && !s.stopping))
    ensures Watching(Launched(s, l).pc)
  {
  }

  lemma LaunchAttends(s: State, l: LaunchStep)
    requires Named(s) && Attended(s) && CanLaunch(s, l)
    ensures Attended(Launched(s, l))
  {
    if l.CancelProbed? {
      CancelAttends(s);
    } else if l.ProbeOk? || l.ProbeFails? || (l.TakeLock? && !s.stopping) {
      ProbeAttends(s, l);
    } else if s.generation > 0 {
      LaunchPutsDown(s, l);
    }
  }

  lemma ReapAttends(s: State, g: nat, r: ReapStep)
    requires Attended(s) && CanReap(s, g, r)
    ensures Attended(Reaping(s, g, r))
  {
  }

  lemma SuperviseAttends(spec: Spec, s: State, v: SuperviseStep)
    requires Attended(s) && CanSupervise(s, v) && (v.Settle? ==> s.pc.g == s.generation && PutDown(s, s.generation))
    ensures Attended(Supervised(spec, s, v))
  {
  }

  lemma StopAttends(s: State, i: nat, t: StopStep)
    requires Attended(s) && CanStop(s, i, t)
    ensures Attended(StopContinued(s, i, t))
  {
  }

  lemma StepAttends(spec: Spec, s: State, step: Step)
    requires Lives(s) && Attended(s) && Enabled(s, step)
    ensures Attended(Do(spec, s, step))
  {
    match step {
      case Launch(l) => LaunchAttends(s, l);
      case Reap(g, r) => ReapAttends(s, g, r);
      case Supervise(v) =>
        if v.Settle? {
          ReapedIsDead(s, s.pc.g);
        }
        SuperviseAttends(spec, s, v);
      case Stop(i, t) => StopAttends(s, i, t);
      case _ =>
    }
  }

  lemma {:induction false} RunAttends(spec: Spec, s: State, steps: seq<Step>, s': State)
    requires Inv(spec, s) && Attended(s) && Reaches(spec, s, steps, s')
    ensures Attended(s')
    decreases |steps|
  {
    if steps != [] {
      StepAttends(spec, s, steps[0]);
      StepKeepsInv(spec, s, steps[0]);
      RunAttends(spec, Do(spec, s, steps[0]), steps[1..], s');
    }
  }

  lemma AttendedChild(s: State, c: nat)
    requires Lives(s) && Attended(s) && c < |s.children| && s.children[c].alive && !s.children[c].killed
    ensures Fresh(s, c) || (s.children[c].gen == s.generation > 0 && Watching(s.pc) && s.pc.g == s.generation)
  {
    assert ChildInv(s, c, s.children[c]);
    if !Fresh(s, c) {
      var g := s.children[c].gen;
      assert 1 <= g <= |s.reapers| && !s.reapers[g - 1].Closed?;
    }
  }

  /** A process that is alive and was not sent SIGKILL is held by the launch path, or it is the current
      generation and being probed, about to be cancelled or watched. */
  lemma NothingUnattended(spec: Spec, steps: seq<Step>, s: State, c: nat)
    requires Reaches(spec, INIT, steps, s) && c < |s.children| && s.children[c].alive && !s.children[c].killed
    ensures Fresh(s, c) || (s.children[c].gen == s.generation > 0 && Watching(s.pc) && s.pc.g == s.generation)
  {
    ReachableInv(spec, steps, s);
    RunAttends(spec, INIT, steps, s);
    AttendedChild(s, c);
  }

  // ---- a generation that is gone is not signalled ----

  ghost predicate NoneTermed(s: State) {
    forall c | 0 <= c < |s.children| :: !s.children[c].termed
  }

  lemma LaunchTermsNone(s: State, l: LaunchStep)
    requires CanLaunch(s, l) && NoneTermed(s)
    ensures NoneTermed(Launched(s, l))
  {
  }

  lemma ReapTermsNone(s: State, g: nat, r: ReapStep)
    requires CanReap(s, g, r) && NoneTermed(s)
    ensures NoneTermed(Reaping(s, g, r))
  {
  }

  lemma StopTermsNone(s: State, i: nat, t: StopStep)
    requires CanStop(s, i, t) && !t.Term? && NoneTermed(s)
    ensures NoneTermed(StopContinued(s, i, t))
  {
  }

  /** Only one step sends SIGTERM. */
  lemma OnlyTermTerms(spec: Spec, s: State, step: Step)
    requires Enabled(s, step) && !(step.Stop? && step.t.Term?) && NoneTermed(s)
    ensures NoneTermed(Do(spec, s, step))
  {
    match step {
      case Launch(l) => LaunchTermsNone(s, l);
      case Reap(g, r) => ReapTermsNone(s, g, r);
      case Stop(i, t) => StopTermsNone(s, i, t);
      case _ =>
    }
  }

  /** The record's Stop calls have nothing to signal. */
  ghost predicate NothingToSignal(s: State) {
    && s.stopping && (s.generation == 0 || Reaped(s, s.generation))
    && forall i | 0 <= i < |s.stoppers| :: !s.stoppers[i].Terminating? && !s.stoppers[i].Awaiting?
  }

  lemma LaunchSignalsNothing(s: State, l: LaunchStep)
    requires NothingToSignal(s) && CanLaunch(s, l)
    ensures NothingToSignal(Launched(s, l))
  {
  }

  lemma ReapSignalsNothing(s: State, g: nat, r: ReapStep)
    requires NothingToSignal(s) && CanReap(s, g, r)
    ensures NothingToSignal(Reaping(s, g, r))
  {
  }

  lemma StopSignalsNothing(s: State, i: nat, t: StopStep)
    requires NothingToSignal(s) && CanStop(s, i, t)
    ensures NothingToSignal(StopContinued(s, i, t))
  {
  }

  lemma StopFindsNothing(s: State)
    requires Stops(s) && !s.stopping && (s.generation == 0 || Reaped(s, s.generation))
    ensures NothingToSignal(Stopping(s))
  {
  }

  lemma StillNothing(spec: Spec, s: State, step: Step)
    requires NothingToSignal(s) && Enabled(s, step)
    ensures NothingToSignal(Do(spec, s, step))
  {
    match step {
      case Launch(l) => LaunchSignalsNothing(s, l);
      case Reap(g, r) => ReapSignalsNothing(s, g, r);
      case Stop(i, t) => StopSignalsNothing(s, i, t);
      case _ =>
    }
  }

  lemma {:induction false} RunSignalsNothing(spec: Spec, s: State, steps: seq<Step>, s': State)
    requires NothingToSignal(s) && NoneTermed(s) && Reaches(spec, s, steps, s')
    ensures NothingToSignal(s') && NoneTermed(s')
    decreases |steps|
  {
    if steps != [] {
      OnlyTermTerms(spec, s, steps[0]);
      StillNothing(spec, s, steps[0]);
      RunSignalsNothing(spec, Do(spec, s, steps[0]), steps[1..], s');
    }
  }

  lemma {:induction false} RunTermsNone(spec: Spec, s: State, steps: seq<Step>, s': State)
    requires Inv(spec, s) && NoneTermed(s) && Reaches(spec, s, steps, s') && !s'.stopping
    ensures !s.stopping && NoneTermed(s')
    decreases |steps|
  {
    if steps != [] {
      var m := Do(spec, s, steps[0]);
      StepKeepsInv(spec, s, steps[0]);
      if s.stopping {
        Frozen(spec, s, steps, s');
      }
      assert Stops(s);
      OnlyTermTerms(spec, s, steps[0]);
      RunTermsNone(spec, m, steps[1..], s');
    }
  }

  lemma NoneTermedBefore(spec: Spec, steps: seq<Step>, s: State)
    requires Reaches(spec, INIT, steps, s) && !s.stopping
    ensures NoneTermed(s) && Stops(s)
  {
    ReachableInv(spec, steps, s);
    RunTermsNone(spec, INIT, steps, s);
  }

  /** Stop never signals a generation that was reaped before it was called: its process id may be another's. */
  lemma GoneIsNotSignalled(spec: Spec, before: seq<Step>, s: State, after: seq<Step>, s': State)
    requires Reaches(spec, INIT, before, s) && !s.stopping && (s.generation == 0 || Reaped(s, s.generation))
    requires Reaches(spec, Stopping(s), after, s')
    ensures forall c | 0 <= c < |s'.children| :: !s'.children[c].termed
    ensures forall i | 0 <= i < |s'.stoppers| :: !CanStop(s', i, Kill)
  {
    NoneTermedBefore(spec, before, s);
    StopFindsNothing(s);
    RunSignalsNothing(spec, Stopping(s), after, s');
  }

  // ---- the status after a Stop ----

  /** A relaunch before its publication, or one that failed. */
  predicate Relaunch(s: State) {
    s.attempts > 1 && (s.pc.Spawning? || s.pc.Spawned? || s.pc.Doomed? || s.pc.ProbeFailed? || s.pc.LaunchFailed?)
  }

  /** The launch path has nothing left to say that a Stop would not. */
  predicate Final(spec: Spec, s: State) {
    || s.pc.Over? || s.pc.Sleeping? || s.pc.Supervising? || Relaunch(s)
    || (s.pc.Deciding? && !(spec.restart && 0 < spec.maxRestarts <= s.pc.k))
  }

  lemma LaunchStaysFinal(spec: Spec, s: State, l: LaunchStep)
    requires s.stopping && s.status == Stopped && Final(spec, s) && CanLaunch(s, l)
    ensures Launched(s, l).status == Stopped && Final(spec, Launched(s, l))
  {
  }

  lemma StopStaysFinal(spec: Spec, s: State, i: nat, t: StopStep)
    requires s.stopping && s.status == Stopped && Final(spec, s) && CanStop(s, i, t)
    ensures StopContinued(s, i, t).status == Stopped && Final(spec, StopContinued(s, i, t))
  {
  }

  lemma StaysFinal(spec: Spec, s: State, step: Step)
    requires s.stopping && s.status == Stopped && Final(spec, s) && Enabled(s, step)
    ensures var s' := Do(spec, s, step); s'.stopping && s'.status == Stopped && Final(spec, s')
  {
    FrozenStep(spec, s, step);
    match step {
      case Launch(l) => LaunchStaysFinal(spec, s, l);
      case Stop(i, t) => StopStaysFinal(spec, s, i, t);
      case _ =>
    }
  }

  lemma {:induction false} RunStaysFinal(spec: Spec, s: State, steps: seq<Step>, s': State)
    requires s.stopping && s.status == Stopped && Final(spec, s) && Reaches(spec, s, steps, s')
    ensures s'.status == Stopped
    decreases |steps|
  {
    if steps != [] {
      StaysFinal(spec, s, steps[0]);
      RunStaysFinal(spec, Do(spec, s, steps[0]), steps[1..], s');
    }
  }

  /** What the launch path says next. */
  function NextWord(s: State): Step {
    match s.pc
    case Spawning => Launch(SpawnFails)
    case Spawned(_) => Launch(TakeLock)
    case Doomed(_) => Launch(KillDoomed)
    case Probing(_) => Launch(ProbeOk)
    case ProbeFailed(_) => Launch(CancelProbed)
    case LaunchFailed => Launch(GiveUp(true))
    case Reporting => Launch(Report)
    case _ => Supervise(Decide)
  }

  function Distance(pc: Pc): nat {
    match pc
    case Spawning => 2
    case Spawned(_) => 3
    case Doomed(_) => 2
    case ProbeFailed(_) => 2
    case _ => 1
  }

  lemma NextWordSaid(spec: Spec, s: State)
    requires Inv(spec, s) && s.stopping && s.status == Stopped && !Final(spec, s)
    ensures Enabled(s, NextWord(s))
    ensures var s' := Do(spec, s, NextWord(s));
            s'.status != Stopped || (s'.stopping && !Final(spec, s') && Distance(s'.pc) < Distance(s.pc))
  {
  }

  lemma {:induction false} Overwritten(spec: Spec, s: State) returns (steps: seq<Step>, s': State)
    requires Inv(spec, s) && s.stopping && s.status == Stopped && !Final(spec, s)
    ensures Reaches(spec, s, steps, s') && s'.status != Stopped
    decreases Distance(s.pc)
  {
    NextWordSaid(spec, s);
    var step := NextWord(s);
    var m := Do(spec, s, step);
    if m.status != Stopped {
      steps, s' := [step], m;
      assert Reaches(spec, m, [], m);
    } else {
      StepKeepsInv(spec, s, step);
      var rest, end := Overwritten(spec, m);
      steps, s' := [step] + rest, end;
      assert steps[1..] == rest;
    }
  }

  ghost predicate StaysStopped(spec: Spec, s: State) {
    forall steps, s' | Reaches(spec, s, steps, s') :: s'.status == Stopped
  }

  lemma StaysStoppedExactly(spec: Spec, s: State)
    requires Inv(spec, s) && s.stopping && s.status == Stopped
    ensures StaysStopped(spec, s) <==> Final(spec, s)
  {
    if Final(spec, s) {
      forall steps, s' | Reaches(spec, s, steps, s') ensures s'.status == Stopped {
        RunStaysFinal(spec, s, steps, s');
      }
    } else {
      var steps, s' := Overwritten(spec, s);
    }
  }

  /** A Stop that finishes has the last word on the status, exactly when the launch path has nothing else to say. */
  lemma StopHasLastWord(spec: Spec, before: seq<Step>, s: State, i: nat)
    requires Reaches(spec, INIT, before, s) && CanStop(s, i, Finish)
    ensures StaysStopped(spec, Do(spec, s, Stop(i, Finish))) <==> Final(spec, s)
  {
    ReachableInv(spec, before, s);
    assert Stops(s);
    StepKeepsInv(spec, s, Stop(i, Finish));
    StaysStoppedExactly(spec, Do(spec, s, Stop(i, Finish)));
  }
}
