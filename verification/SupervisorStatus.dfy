/**
 What the status of a process record tells its reader (internal/agent/supervisor.go), in every reachable
 state of the record.
 */
module SupervisorStatus {
  import opened Supervisor
  import opened SupervisorSafety

  /** On the way from a back-off, or in it, to the next published generation or the end. */
  predicate Relaunching(s: State) {
    || s.pc.Sleeping?
    || (s.attempts > 1 &&
        (s.pc.Spawning? || s.pc.Spawned? || s.pc.Doomed? || s.pc.LaunchFailed? || s.pc.Reporting?))
  }

  /** From the exit of a generation to the publication of the next: the decision, the back-off, the relaunch. */
  predicate BetweenGenerations(s: State) {
    s.pc.Deciding? || s.pc.Sleeping? || (s.attempts > 1 && (s.pc.Spawning? || s.pc.Spawned?))
  }

  ghost predicate Told(spec: Spec, s: State) {
    && (s.status == Running ==> s.pc.Supervising?)
    && (s.pc.Supervising? && !s.stopping ==> s.status == Running)
    && (s.pc.Probing? && !s.stopping ==> s.status == Starting)
    && (BetweenGenerations(s) && !s.stopping ==> s.status == if s.exitErr then Failed else Stopped)
    && (s.pc.Sleeping? && !s.stopping ==> s.pending)
    && (s.pending && !s.stopping ==> Relaunching(s))
    && (s.status == Crashloop ==> s.pc.Over? && spec.restart && 0 < spec.maxRestarts == s.restarts)
    && (s.attempts > 1 || s.pc.Deciding? || s.pc.Sleeping? ==> s.status == Starting ==> s.pc.Probing?)
  }

  lemma LaunchTells(spec: Spec, s: State, l: LaunchStep)
    requires Inv(spec, s) && Told(spec, s) && CanLaunch(s, l)
    ensures Told(spec, Launched(s, l))
  {
  }

  lemma ReapTells(spec: Spec, s: State, g: nat, r: ReapStep)
    requires Inv(spec, s) && Told(spec, s) && CanReap(s, g, r)
    ensures Told(spec, Reaping(s, g, r))
  {
  }

  lemma SuperviseTells(spec: Spec, s: State, v: SuperviseStep)
    requires Inv(spec, s) && Told(spec, s) && CanSupervise(s, v)
    ensures Told(spec, Supervised(spec, s, v))
  {
  }

  lemma StopTells(spec: Spec, s: State, i: nat, t: StopStep)
    requires Inv(spec, s) && Told(spec, s) && CanStop(s, i, t)
    ensures Told(spec, StopContinued(s, i, t))
  {
  }

  lemma StepTells(spec: Spec, s: State, step: Step)
    requires Inv(spec, s) && Told(spec, s) && Enabled(s, step)
    ensures Told(spec, Do(spec, s, step))
  {
    match step {
      case Launch(l) => LaunchTells(spec, s, l);
      case Reap(g, r) => ReapTells(spec, s, g, r);
      case Supervise(v) => SuperviseTells(spec, s, v);
      case Stop(i, t) => StopTells(spec, s, i, t);
      case _ =>
    }
  }

  lemma {:induction false} RunTells(spec: Spec, s: State, steps: seq<Step>, s': State)
    requires Inv(spec, s) && Told(spec, s) && Reaches(spec, s, steps, s')
    ensures Told(spec, s')
    decreases |steps|
  {
    if steps != [] {
      StepTells(spec, s, steps[0]);
      StepKeepsInv(spec, s, steps[0]);
      RunTells(spec, Do(spec, s, steps[0]), steps[1..], s');
    }
  }

  lemma AlwaysTold(spec: Spec, steps: seq<Step>, s: State)
    requires Reaches(spec, INIT, steps, s)
    ensures Told(spec, s)
  {
    ReachableInv(spec, [], INIT);
    RunTells(spec, INIT, steps, s);
  }

  /**
   The status tells where the record is: running exactly while a ready generation is watched (once Stop was
   called it may already say stopped), failed or stopped by how the generation exited until the next one is
   published, crashloop only after the restart budget is spent; and a restart that is announced is on its way.
   */
  lemma StatusTells(spec: Spec, steps: seq<Step>, s: State)
    requires Reaches(spec, INIT, steps, s)
    ensures s.status == Running ==> s.pc.Supervising?
    ensures !s.stopping ==> (s.status == Running <==> s.pc.Supervising?)
    ensures BetweenGenerations(s) && !s.stopping ==> s.status == if s.exitErr then Failed else Stopped
    ensures s.pc.Sleeping? && !s.stopping ==> s.pending
    ensures s.pending && !s.stopping ==> Relaunching(s)
    ensures s.status == Crashloop ==> s.pc.Over? && spec.restart && s.restarts == spec.maxRestarts
    ensures s.pc.Over? && s.attempts > 1 ==> s.status == Failed || s.status == Stopped || s.status == Crashloop
  {
    AlwaysTold(spec, steps, s);
  }

  // ---- SIGTERM before SIGKILL ----

  /** The child published as `g` has been sent SIGTERM. */
  ghost predicate Termed(s: State, g: nat) {
    1 <= g <= |s.published| && s.published[g - 1] < |s.children| && s.children[s.published[g - 1]].termed
  }

  ghost predicate TermFirst(s: State) {
    && (forall i | 0 <= i < |s.stoppers| && s.stoppers[i].Terminating? :: 1 <= s.stoppers[i].g)
    && (forall i | 0 <= i < |s.stoppers| && s.stoppers[i].Awaiting? :: Termed(s, s.stoppers[i].g))
  }

  lemma TermedFramed(s: State, s': State)
    requires TermFirst(s) && s'.stoppers == s.stoppers && s.published <= s'.published && |s.children| <= |s'.children|
    requires forall c | 0 <= c < |s.children| :: s.children[c].termed ==> s'.children[c].termed
    ensures TermFirst(s')
  {
    forall i | 0 <= i < |s'.stoppers| && s'.stoppers[i].Awaiting? ensures Termed(s', s'.stoppers[i].g) {
      assert Termed(s, s.stoppers[i].g);
    }
  }

  lemma StopTerms(spec: Spec, s: State, i: nat, t: StopStep)
    requires Inv(spec, s) && TermFirst(s) && CanStop(s, i, t)
    ensures TermFirst(StopContinued(s, i, t))
  {
    var g, s' := s.stoppers[i].g, StopContinued(s, i, t);
    if t.Term? {
      assert Stops(s) && Named(s) && g == s.generation;
      assert 1 <= g;
    }
    forall j | 0 <= j < |s'.stoppers| && s'.stoppers[j].Awaiting? ensures Termed(s', s'.stoppers[j].g) {
      assert j != i ==> Termed(s, s.stoppers[j].g);
    }
  }

  lemma LaunchTerms(s: State, l: LaunchStep)
    requires TermFirst(s) && CanLaunch(s, l)
    ensures TermFirst(Launched(s, l))
  {
    TermedFramed(s, Launched(s, l));
  }

  lemma ReapTerms(s: State, g: nat, r: ReapStep)
    requires TermFirst(s) && CanReap(s, g, r)
    ensures TermFirst(Reaping(s, g, r))
  {
    TermedFramed(s, Reaping(s, g, r));
  }

  lemma SuperviseTerms(spec: Spec, s: State, v: SuperviseStep)
    requires TermFirst(s) && CanSupervise(s, v)
    ensures TermFirst(Supervised(spec, s, v))
  {
    TermedFramed(s, Supervised(spec, s, v));
  }

  lemma StopBeginTerms(s: State)
    requires TermFirst(s)
    ensures TermFirst(Stopping(s))
  {
    assert forall i | 0 <= i < |s.stoppers| :: Stopping(s).stoppers[i] == s.stoppers[i];
  }

  lemma StepTerms(spec: Spec, s: State, step: Step)
    requires Inv(spec, s) && TermFirst(s) && Enabled(s, step)
    ensures TermFirst(Do(spec, s, step))
  {
    match step {
      case Launch(l) => LaunchTerms(s, l);
      case Reap(g, r) => ReapTerms(s, g, r);
      case ReapOrphan(c) => TermedFramed(s, OrphanReaped(s, c));
      case Supervise(v) => SuperviseTerms(spec, s, v);
      case StopBegins => StopBeginTerms(s);
      case Stop(i, t) => StopTerms(spec, s, i, t);
      case Exit(c) => TermedFramed(s, SetChild(s, c, s.children[c].(alive := false)));
    }
  }

  lemma {:induction false} RunTerms(spec: Spec, s: State, steps: seq<Step>, s': State)
    requires Inv(spec, s) && TermFirst(s) && Reaches(spec, s, steps, s')
    ensures TermFirst(s')
    decreases |steps|
  {
    if steps != [] {
      StepTerms(spec, s, steps[0]);
      StepKeepsInv(spec, s, steps[0]);
      RunTerms(spec, Do(spec, s, steps[0]), steps[1..], s');
    }
  }

  /** A Stop sends SIGKILL at the end of its wait only to a child it sent SIGTERM before. */
  lemma TermBeforeKill(spec: Spec, steps: seq<Step>, s: State, i: nat)
    requires Reaches(spec, INIT, steps, s) && CanStop(s, i, Kill)
    ensures Termed(s, s.stoppers[i].g)
  {
    RunTerms(spec, INIT, steps, s);
  }
}
