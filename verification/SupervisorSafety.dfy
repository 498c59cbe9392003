/** What every interleaving keeps, and what follows for Stop, the generations and the restart budget. */
module SupervisorSafety {
  import opened Supervisor

  // ---- the invariant ----

  /** Generations and children name each other. */
  ghost predicate Named(s: State) {
    && s.generation == |s.published| == |s.reapers|
    && (forall g | 0 <= g < |s.published| :: s.published[g] < |s.children| && s.children[s.published[g]].gen == g + 1)
    && (forall c | 0 <= c < |s.children| && s.children[c].gen > 0 ::
          s.children[c].gen <= |s.published| && s.published[s.children[c].gen - 1] == c)
  }

  /** The launch path still holds this unpublished child. */
  predicate Fresh(s: State, c: nat) {
    s.pc == Spawned(c) || s.pc == Doomed(c)
  }

  /** Every child is waited for by exactly one waiter, and an unpublished one is killed. */
  ghost predicate ChildInv(s: State, c: nat, x: Child) {
    if x.gen > 0 then
      && c !in s.orphans && !Fresh(s, c) && 1 <= x.gen <= |s.reapers|
      && x.waits == (if s.reapers[x.gen - 1].Waiting? then 0 else 1)
      && (x.waits == 1 ==> !x.alive)
    else if Fresh(s, c) then x.waits == 0 && c !in s.orphans
    else x.killed && x.waits == (if c in s.orphans then 0 else 1) && (x.waits == 1 ==> !x.alive)
  }

  ghost predicate Children(s: State) {
    && (forall c | 0 <= c < |s.children| :: ChildInv(s, c, s.children[c]))
    && (s.pc.Spawned? || s.pc.Doomed? ==> s.pc.c < |s.children| && s.children[s.pc.c].gen == 0)
    && (forall c | c in s.orphans :: c < |s.children|)
  }

  /** The launch path may spawn again only when the last generation has been reaped. */
  predicate Between(pc: Pc) {
    pc.Spawning? || pc.Spawned? || pc.Doomed? || pc.Deciding? || pc.Sleeping?
  }

  ghost predicate Generations(s: State) {
    && (forall g | 0 <= g < |s.reapers| - 1 :: s.reapers[g].Closed?)
    && (Between(s.pc) && s.reapers != [] ==> s.reapers[|s.reapers| - 1].Closed?)
    && (s.pc.Probing? || s.pc.ProbeFailed? || s.pc.Supervising? ==> s.pc.g == s.generation && s.generation > 0)
    && (s.pc.Doomed? ==> s.stopping)
  }

  /** The child of generation `g` is gone or will be. */
  ghost predicate PutDown(s: State, g: nat) {
    1 <= g <= |s.published| ==>
      s.published[g - 1] < |s.children| &&
      (!s.children[s.published[g - 1]].alive || s.children[s.published[g - 1]].killed)
  }

  ghost predicate Stops(s: State) {
    && (s.stopping <==> s.stoppers != [])
    && (forall i | 0 <= i < |s.stoppers| ::
          && s.stoppers[i].g == s.generation
          && (s.stoppers[i].Terminating? || s.stoppers[i].Awaiting? || PutDown(s, s.generation)))
    && (forall i | 0 <= i < |s.stoppers| && (s.stoppers[i].Cancelling? || s.stoppers[i].Done?) :: !s.pending)
  }

  ghost predicate Budget(spec: Spec, s: State) {
    && s.attempts == 1 + s.spent + s.restarts
    && (s.resets == 0 ==> s.spent == 0)
    && (s.pc.Deciding? || s.pc.Sleeping? ==> s.pc.k == s.restarts)
    && (spec.maxRestarts > 0 ==> s.restarts <= spec.maxRestarts && s.spent <= s.resets * spec.maxRestarts)
    && (spec.maxRestarts > 0 && s.pc.Sleeping? ==> s.restarts < spec.maxRestarts)
    && (s.status == Crashloop ==> s.pc == Over)
    && |s.children| + (if s.pc.Spawning? then 1 else 0) <= s.attempts
  }

  /** Everything but the restart budget. */
  ghost predicate Lives(s: State) {
    Named(s) && Children(s) && Generations(s) && Stops(s)
  }

  ghost predicate Inv(spec: Spec, s: State) {
    Lives(s) && Budget(spec, s)
  }

  // ---- the steps ----

  /** The launch path moves on; children, generations and Stops are as they were. */
  lemma PathMoves(s: State, s': State)
    requires Lives(s) && Generations(s')
    requires s' == s.(pc := s'.pc, status := s'.status, pending := s'.pending, restarts := s'.restarts,
                      exitErr := s'.exitErr, attempts := s'.attempts, resets := s'.resets, spent := s'.spent)
    requires (s.pc.Spawned? || s.pc.Doomed? || s'.pc.Spawned? || s'.pc.Doomed?) ==>
               (s.pc.Spawned? || s.pc.Doomed?) && (s'.pc.Spawned? || s'.pc.Doomed?) && s.pc.c == s'.pc.c
    requires s'.pending ==> s.pending || !s.stopping
    ensures Lives(s')
  {
    assert forall c :: Fresh(s', c) == Fresh(s, c);
  }

  lemma StopsFramed(s: State, s': State)
    requires Stops(s) && (PutDown(s, s.generation) ==> PutDown(s', s.generation))
    requires s'.stoppers == s.stoppers && s'.stopping == s.stopping
    requires s'.generation == s.generation && s'.pending == s.pending
    ensures Stops(s')
  {
  }

  lemma NamedTouched(s: State, c: nat, x: Child)
    requires Named(s) && c < |s.children| && x.gen == s.children[c].gen
    ensures Named(SetChild(s, c, x))
  {
  }

  lemma ChildrenTouched(s: State, c: nat, x: Child)
    requires Children(s) && c < |s.children|
    requires x.gen == s.children[c].gen && x.waits == s.children[c].waits
    requires (s.children[c].killed ==> x.killed) && (x.alive ==> s.children[c].alive)
    ensures Children(SetChild(s, c, x))
  {
    var s' := SetChild(s, c, x);
    forall k | 0 <= k < |s'.children| ensures ChildInv(s', k, s'.children[k]) {
      assert ChildInv(s, k, s.children[k]);
    }
  }

  /** A signal, or an exit: one child is changed, and neither revived nor renamed. */
  lemma ChildTouched(s: State, c: nat, x: Child)
    requires Lives(s) && c < |s.children|
    requires x.gen == s.children[c].gen && x.waits == s.children[c].waits
    requires (s.children[c].killed ==> x.killed) && (x.alive ==> s.children[c].alive)
    ensures Lives(SetChild(s, c, x))
  {
    ChildrenTouched(s, c, x);
    NamedTouched(s, c, x);
    StopsFramed(s, SetChild(s, c, x));
  }

  lemma SpawnedChildren(s: State)
    requires Children(s) && CanLaunch(s, SpawnOk)
    ensures Children(Launched(s, SpawnOk))
  {
    var s' := Launched(s, SpawnOk);
    forall k | 0 <= k < |s'.children| ensures ChildInv(s', k, s'.children[k]) {
      assert k < |s.children| ==> s'.children[k] == s.children[k] && ChildInv(s, k, s.children[k]);
    }
  }

  lemma SpawnedNamed(s: State)
    requires Named(s) && CanLaunch(s, SpawnOk)
    ensures Named(Launched(s, SpawnOk))
  {
    var s' := Launched(s, SpawnOk);
    assert forall k | 0 <= k < |s.children| :: s'.children[k] == s.children[k];
  }

  lemma Spawns(s: State)
    requires Lives(s) && CanLaunch(s, SpawnOk)
    ensures Lives(Launched(s, SpawnOk))
  {
    SpawnedChildren(s);
    SpawnedNamed(s);
    StopsFramed(s, Launched(s, SpawnOk));
  }

  lemma PublishedChildren(s: State, c: nat)
    requires Named(s) && Children(s) && s.pc == Spawned(c)
    ensures Children(Publish(s, c))
  {
    var s' := Publish(s, c);
    forall k | 0 <= k < |s'.children| ensures ChildInv(s', k, s'.children[k]) {
      assert ChildInv(s, k, s.children[k]);
      if k != c && s.children[k].gen > 0 {
        assert s'.reapers[s.children[k].gen - 1] == s.reapers[s.children[k].gen - 1];
      }
    }
  }

  lemma Publishes(s: State, c: nat)
    requires Lives(s) && s.pc == Spawned(c) && !s.stopping
    ensures Lives(Publish(s, c))
  {
    var s' := Publish(s, c);
    PublishedChildren(s, c);
    forall g | 0 <= g < |s'.reapers| - 1 ensures s'.reapers[g].Closed? {
      assert s'.reapers[g] == s.reapers[g];
    }
    assert Named(s');
  }

  lemma KilledChildren(s: State)
    requires Children(s) && CanLaunch(s, KillDoomed)
    ensures Children(Launched(s, KillDoomed))
  {
    var s' := Launched(s, KillDoomed);
    forall k | 0 <= k < |s'.children| ensures ChildInv(s', k, s'.children[k]) {
      assert ChildInv(s, k, s.children[k]);
    }
  }

  lemma KillsDoomed(s: State)
    requires Lives(s) && CanLaunch(s, KillDoomed)
    ensures Lives(Launched(s, KillDoomed))
  {
    KilledChildren(s);
    var s' := Launched(s, KillDoomed);
    assert Named(s');
    assert PutDown(s, s.generation) ==> PutDown(s', s.generation);
  }

  lemma CollectedChildren(s: State, g: nat, err: bool)
    requires Named(s) && Children(s) && CanReap(s, g, Collect(err))
    ensures Children(Reaping(s, g, Collect(err)))
  {
    var s' := Reaping(s, g, Collect(err));
    forall k | 0 <= k < |s'.children| ensures ChildInv(s', k, s'.children[k]) {
      assert ChildInv(s, k, s.children[k]);
    }
  }

  lemma CollectedNamed(s: State, g: nat, err: bool)
    requires Named(s) && CanReap(s, g, Collect(err))
    ensures Named(Reaping(s, g, Collect(err)))
  {
    var c := s.published[g - 1];
    NamedTouched(s, c, s.children[c].(waits := s.children[c].waits + 1));
  }

  lemma CollectedGenerations(s: State, g: nat, err: bool)
    requires Named(s) && Generations(s) && CanReap(s, g, Collect(err))
    ensures Generations(Reaping(s, g, Collect(err)))
  {
    var s' := Reaping(s, g, Collect(err));
    assert forall h | 0 <= h < |s.reapers| && h != g - 1 :: s'.reapers[h] == s.reapers[h];
  }

  lemma Collects(s: State, g: nat, err: bool)
    requires Lives(s) && CanReap(s, g, Collect(err))
    ensures Lives(Reaping(s, g, Collect(err)))
  {
    CollectedChildren(s, g, err);
    CollectedNamed(s, g, err);
    CollectedGenerations(s, g, err);
    StopsFramed(s, Reaping(s, g, Collect(err)));
  }

  lemma ChildrenFramed(s: State, s': State)
    requires Children(s) && s'.children == s.children && s'.orphans == s.orphans && s'.pc == s.pc
    requires |s'.reapers| == |s.reapers|
    requires forall h | 0 <= h < |s.reapers| :: s'.reapers[h].Waiting? == s.reapers[h].Waiting?
    ensures Children(s')
  {
    forall k | 0 <= k < |s'.children| ensures ChildInv(s', k, s'.children[k]) {
      assert ChildInv(s, k, s.children[k]);
    }
  }

  /** The reaper of a collected child goes on. */
  lemma ReaperMoves(s: State, g: nat, r: ReapStep)
    requires Lives(s) && CanReap(s, g, r) && !r.Collect?
    ensures Lives(Reaping(s, g, r))
  {
    var s' := Reaping(s, g, r);
    assert forall h | 0 <= h < |s.reapers| && h != g - 1 :: s'.reapers[h] == s.reapers[h];
    assert Named(s');
    ChildrenFramed(s, s');
  }

  lemma OrphanChildren(s: State, c: nat)
    requires Children(s) && c in s.orphans && c < |s.children| && !s.children[c].alive
    ensures Children(OrphanReaped(s, c))
  {
    var s' := OrphanReaped(s, c);
    assert ChildInv(s, c, s.children[c]);
    forall k | 0 <= k < |s'.children| ensures ChildInv(s', k, s'.children[k]) {
      assert ChildInv(s, k, s.children[k]);
    }
  }

  lemma OrphanCollected(s: State, c: nat)
    requires Lives(s) && c in s.orphans && c < |s.children| && !s.children[c].alive
    ensures Lives(OrphanReaped(s, c))
  {
    var s' := OrphanReaped(s, c);
    OrphanChildren(s, c);
    NamedTouched(s, c, s'.children[c]);
    assert Named(s');
    StopsFramed(s, s');
  }

  lemma GenerationKilled(s: State, g: nat)
    requires Lives(s)
    ensures Lives(KillGeneration(s, g)) && Lives(TermGeneration(s, g)) && PutDown(KillGeneration(s, g), g)
  {
    if 1 <= g <= |s.published| {
      var c := s.published[g - 1];
      ChildTouched(s, c, s.children[c].(killed := true));
      ChildTouched(s, c, s.children[c].(termed := true));
    }
  }

  /** Launch steps that only move the path. */
  predicate OnPath(s: State, l: LaunchStep) {
    l.SpawnFails? || l.ProbeOk? || l.ProbeFails? || l.GiveUp? || l.Report? || (l.TakeLock? && s.stopping)
  }

  lemma KeepsPath(s: State, l: LaunchStep)
    requires Lives(s) && CanLaunch(s, l) && OnPath(s, l)
    ensures Lives(Launched(s, l))
  {
    PathMoves(s, Launched(s, l));
  }

  lemma CancelsProbed(s: State)
    requires Lives(s) && CanLaunch(s, CancelProbed)
    ensures Lives(Launched(s, CancelProbed))
  {
    GenerationKilled(s, s.generation);
    PathMoves(KillGeneration(s, s.generation), Launched(s, CancelProbed));
  }

  lemma KeepsLaunch(s: State, l: LaunchStep)
    requires Lives(s) && CanLaunch(s, l)
    ensures Lives(Launched(s, l))
  {
    if OnPath(s, l) {
      KeepsPath(s, l);
    } else {
      match l {
        case SpawnOk => Spawns(s);
        case TakeLock => Publishes(s, s.pc.c);
        case KillDoomed => KillsDoomed(s);
        case CancelProbed => CancelsProbed(s);
      }
    }
  }

  lemma ReapedIsDead(s: State, g: nat)
    requires Named(s) && Children(s) && Reaped(s, g)
    ensures PutDown(s, g)
  {
    var c := s.published[g - 1];
    assert ChildInv(s, c, s.children[c]);
  }

  lemma StopsBegin(s: State)
    requires Named(s) && Children(s) && Stops(s)
    ensures Stops(Stopping(s))
  {
    var s' := Stopping(s);
    if s.generation > 0 && Reaped(s, s.generation) {
      ReapedIsDead(s, s.generation);
    }
    assert PutDown(s, s.generation) ==> PutDown(s', s.generation);
  }

  lemma KeepsStopping(s: State)
    requires Lives(s)
    ensures Lives(Stopping(s))
  {
    StopsBegin(s);
    var s' := Stopping(s);
    forall k | 0 <= k < |s'.children| ensures ChildInv(s', k, s'.children[k]) {
      assert ChildInv(s, k, s.children[k]);
    }
  }

  /** A Stop call moves on; children and generations are as they were. */
  lemma StopperMoves(s: State, i: nat, x: Stopper, s': State)
    requires Lives(s) && i < |s.stoppers| && x.g == s.generation
    requires x.Terminating? || x.Awaiting? || PutDown(s, s.generation)
    requires s' == s.(stoppers := s.stoppers[i := x], status := s'.status, pending := s'.pending)
    requires s'.pending ==> s.pending && !x.Cancelling? && (x.Done? ==> s.stoppers[i].Cancelling?)
    ensures Lives(s')
  {
    assert Children(s');
    assert PutDown(s, s.generation) ==> PutDown(s', s.generation);
  }

  lemma KeepsSignal(s: State, i: nat, t: StopStep)
    requires Lives(s) && CanStop(s, i, t) && (t.Term? || t.Kill? || t.Cancel?)
    ensures Lives(StopContinued(s, i, t))
  {
    var g := s.stoppers[i].g;
    GenerationKilled(s, g);
    var m := if t.Term? then TermGeneration(s, g) else KillGeneration(s, g);
    var x := if t.Term? then Awaiting(g) else if t.Kill? then Finishing(g) else Done(g);
    StopperMoves(m, i, x, StopContinued(s, i, t));
  }

  lemma KeepsStop(s: State, i: nat, t: StopStep)
    requires Lives(s) && CanStop(s, i, t)
    ensures Lives(StopContinued(s, i, t))
  {
    var g, s' := s.stoppers[i].g, StopContinued(s, i, t);
    match t {
      case SeeExit =>
        ReapedIsDead(s, g);
        StopperMoves(s, i, Finishing(g), s');
      case Finish => StopperMoves(s, i, Cancelling(g), s');
      case _ => KeepsSignal(s, i, t);
    }
  }

  lemma KeepsReap(s: State, g: nat, r: ReapStep)
    requires Lives(s) && CanReap(s, g, r)
    ensures Lives(Reaping(s, g, r))
  {
    if r.Collect? {
      Collects(s, g, r.err);
    } else {
      ReaperMoves(s, g, r);
    }
  }

  lemma KeepsSupervise(spec: Spec, s: State, v: SuperviseStep)
    requires Lives(s) && CanSupervise(s, v)
    ensures Lives(Supervised(spec, s, v))
  {
    PathMoves(s, Supervised(spec, s, v));
  }

  lemma StepKeepsLives(spec: Spec, s: State, step: Step)
    requires Lives(s) && Enabled(s, step)
    ensures Lives(Do(spec, s, step))
  {
    match step {
      case Launch(l) => KeepsLaunch(s, l);
      case Reap(g, r) => KeepsReap(s, g, r);
      case ReapOrphan(c) => OrphanCollected(s, c);
      case Supervise(v) => KeepsSupervise(spec, s, v);
      case StopBegins => KeepsStopping(s);
      case Stop(i, t) => KeepsStop(s, i, t);
      case Exit(c) => ChildTouched(s, c, s.children[c].(alive := false));
    }
  }

  lemma SupervisedBudget(spec: Spec, s: State, v: SuperviseStep)
    requires Budget(spec, s) && CanSupervise(s, v)
    ensures Budget(spec, Supervised(spec, s, v))
  {
    assert (s.resets + 1) * spec.maxRestarts == s.resets * spec.maxRestarts + spec.maxRestarts;
  }

  lemma LaunchedBudget(spec: Spec, s: State, l: LaunchStep)
    requires Budget(spec, s) && CanLaunch(s, l)
    ensures Budget(spec, Launched(s, l))
  {
  }

  lemma StoppedBudget(spec: Spec, s: State, i: nat, t: StopStep)
    requires Budget(spec, s) && CanStop(s, i, t)
    ensures Budget(spec, StopContinued(s, i, t))
  {
  }

  lemma ReapedBudget(spec: Spec, s: State, g: nat, r: ReapStep)
    requires Budget(spec, s) && CanReap(s, g, r)
    ensures Budget(spec, Reaping(s, g, r))
  {
  }

  lemma StepKeepsBudget(spec: Spec, s: State, step: Step)
    requires Budget(spec, s) && Enabled(s, step)
    ensures Budget(spec, Do(spec, s, step))
  {
    match step {
      case Launch(l) => LaunchedBudget(spec, s, l);
      case Supervise(v) => SupervisedBudget(spec, s, v);
      case Stop(i, t) => StoppedBudget(spec, s, i, t);
      case Reap(g, r) => ReapedBudget(spec, s, g, r);
      case _ =>
    }
  }

  /** Every step of every actor keeps the invariant. */
  lemma StepKeepsInv(spec: Spec, s: State, step: Step)
    requires Inv(spec, s) && Enabled(s, step)
    ensures Inv(spec, Do(spec, s, step))
  {
    StepKeepsLives(spec, s, step);
    StepKeepsBudget(spec, s, step);
  }

  // ---- every run ----

  lemma {:induction false} RunKeepsInv(spec: Spec, s: State, steps: seq<Step>, s': State)
    requires Inv(spec, s) && Reaches(spec, s, steps, s')
    ensures Inv(spec, s')
    decreases |steps|
  {
    if steps != [] {
      StepKeepsInv(spec, s, steps[0]);
      RunKeepsInv(spec, Do(spec, s, steps[0]), steps[1..], s');
    }
  }

  lemma ReachableInv(spec: Spec, steps: seq<Step>, s: State)
    requires Reaches(spec, INIT, steps, s)
    ensures Inv(spec, s)
  {
    RunKeepsInv(spec, INIT, steps, s);
  }

  ghost predicate SameGenerations(s: State, s': State) {
    s'.stopping && s'.generation == s.generation && s'.published == s.published && |s.children| <= |s'.children|
  }

  lemma FrozenLaunch(s: State, l: LaunchStep)
    requires s.stopping && CanLaunch(s, l)
    ensures SameGenerations(s, Launched(s, l))
  {
  }

  lemma FrozenStop(s: State, i: nat, t: StopStep)
    requires s.stopping && CanStop(s, i, t)
    ensures SameGenerations(s, StopContinued(s, i, t))
  {
  }

  /** One step after `stopping` is set: no generation is published. */
  lemma FrozenStep(spec: Spec, s: State, step: Step)
    requires s.stopping && Enabled(s, step)
    ensures SameGenerations(s, Do(spec, s, step))
  {
    match step {
      case Launch(l) => FrozenLaunch(s, l);
      case Stop(i, t) => FrozenStop(s, i, t);
      case _ =>
    }
  }

  lemma {:induction false} Frozen(spec: Spec, s: State, steps: seq<Step>, s': State)
    requires s.stopping && Reaches(spec, s, steps, s')
    ensures s'.stopping && s'.generation == s.generation && s'.published == s.published
    ensures |s.children| <= |s'.children|
    decreases |steps|
  {
    if steps != [] {
      FrozenStep(spec, s, steps[0]);
      Frozen(spec, Do(spec, s, steps[0]), steps[1..], s');
    }
  }

  /** An explicit Stop wins: from the moment `stopping` is set no generation is ever published again,
      and a child spawned after it stays unpublished and, once the launch path has let go of it, killed. */
  lemma StopWins(spec: Spec, before: seq<Step>, s: State, after: seq<Step>, s': State, c: nat)
    requires Reaches(spec, INIT, before, s) && s.stopping && Reaches(spec, s, after, s')
    requires |s.children| <= c < |s'.children|
    ensures s'.generation == s.generation
    ensures s'.children[c].gen == 0 && (s'.children[c].killed || Fresh(s', c))
  {
    ReachableInv(spec, before, s);
    Frozen(spec, s, after, s');
    RunKeepsInv(spec, s, after, s');
    assert ChildInv(s', c, s'.children[c]);
  }

  /** Once a Stop call has finished, the only child that can be alive without having been sent SIGKILL is
      one the launch path still holds unpublished; and no restart is announced. */
  lemma StopLeavesNothing(spec: Spec, steps: seq<Step>, s: State, i: nat, c: nat)
    requires Reaches(spec, INIT, steps, s) && i < |s.stoppers| && s.stoppers[i].Done? && c < |s.children|
    ensures !s.children[c].alive || s.children[c].killed || Fresh(s, c)
    ensures !s.pending
  {
    ReachableInv(spec, steps, s);
    assert ChildInv(s, c, s.children[c]);
    assert PutDown(s, s.generation);
  }

  /** The stale-generation guards of the reaper and of superviseExit never fire. */
  lemma GuardsNeverFire(spec: Spec, steps: seq<Step>, s: State, g: nat)
    requires Reaches(spec, INIT, steps, s)
    ensures CanReap(s, g, Note) ==> s.generation == g && Reaping(s, g, Note).exitErr == s.reapers[g - 1].err
    ensures s.pc.Supervising? ==> s.generation == s.pc.g
  {
    ReachableInv(spec, steps, s);
  }

  /** A generation is published only when every earlier one has exited, been waited for and been closed. */
  lemma PublishAfterReap(spec: Spec, steps: seq<Step>, s: State, g: nat)
    requires Reaches(spec, INIT, steps, s) && CanLaunch(s, TakeLock) && !s.stopping && 1 <= g <= s.generation
    ensures Reaped(s, g) && |s.published| == s.generation && s.published[g - 1] < |s.children|
    ensures !s.children[s.published[g - 1]].alive && s.children[s.published[g - 1]].waits == 1
    ensures Launched(s, TakeLock).generation == s.generation + 1
  {
    ReachableInv(spec, steps, s);
    var c := s.published[g - 1];
    assert ChildInv(s, c, s.children[c]);
  }

  /** At most one published child of a record is alive. */
  lemma OneLiveGeneration(spec: Spec, steps: seq<Step>, s: State, c: nat, c': nat)
    requires Reaches(spec, INIT, steps, s) && c < |s.children| && c' < |s.children|
    requires s.children[c].alive && s.children[c'].alive && s.children[c].gen > 0 && s.children[c'].gen > 0
    ensures c == c' && s.children[c].gen == s.generation
  {
    ReachableInv(spec, steps, s);
    assert ChildInv(s, c, s.children[c]) && ChildInv(s, c', s.children[c']);
  }

  /** No child is waited for twice, and when every waiter is done each has been waited for once. */
  lemma WaitedOnce(spec: Spec, steps: seq<Step>, s: State, c: nat)
    requires Reaches(spec, INIT, steps, s) && c < |s.children|
    ensures s.children[c].waits <= 1
    ensures s.orphans == {} && !Fresh(s, c) && (forall g | 0 <= g < |s.reapers| :: s.reapers[g].Closed?) ==>
              s.children[c].waits == 1 && !s.children[c].alive
  {
    ReachableInv(spec, steps, s);
    assert ChildInv(s, c, s.children[c]);
  }

  /** The restart budget: with a positive MaxRestarts the counter never exceeds it, and without a reset
      by a stable generation at most MaxRestarts + 1 children are ever spawned; each reset buys at most
      MaxRestarts more. */
  lemma RestartBudget(spec: Spec, steps: seq<Step>, s: State)
    requires Reaches(spec, INIT, steps, s) && spec.maxRestarts > 0
    ensures s.restarts <= spec.maxRestarts
    ensures |s.children| <= s.attempts <= 1 + (s.resets + 1) * spec.maxRestarts
    ensures s.resets == 0 ==> |s.children| <= spec.maxRestarts + 1
  {
    ReachableInv(spec, steps, s);
    assert (s.resets + 1) * spec.maxRestarts == s.resets * spec.maxRestarts + spec.maxRestarts;
  }

  /** The launch path is over, and only a Stop could have changed the status since. */
  predicate AtRest(s: State) {
    s.pc == Over && (s.stoppers != [] ==> s.stopping) && (s.status == Crashloop || (s.status == Stopped && s.stopping))
  }

  lemma CrashloopStop(s: State, i: nat, t: StopStep)
    requires AtRest(s) && CanStop(s, i, t)
    ensures var m := StopContinued(s, i, t);
            AtRest(m) && |m.children| == |s.children| && m.generation == s.generation
  {
  }

  lemma CrashloopStep(spec: Spec, s: State, step: Step)
    requires AtRest(s) && Enabled(s, step)
    ensures var m := Do(spec, s, step);
            AtRest(m) && |m.children| == |s.children| && m.generation == s.generation
  {
    if step.Stop? {
      CrashloopStop(s, step.i, step.t);
    }
  }

  lemma {:induction false} CrashloopRun(spec: Spec, s: State, steps: seq<Step>, s': State)
    requires AtRest(s) && Reaches(spec, s, steps, s')
    ensures AtRest(s') && |s'.children| == |s.children| && s'.generation == s.generation
    decreases |steps|
  {
    if steps != [] {
      CrashloopStep(spec, s, steps[0]);
      CrashloopRun(spec, Do(spec, s, steps[0]), steps[1..], s');
    }
  }

  /** A record in crashloop is never relaunched, and only a Stop changes its status. */
  lemma CrashloopStays(spec: Spec, before: seq<Step>, s: State, after: seq<Step>, s': State)
    requires Reaches(spec, INIT, before, s) && s.status == Crashloop && Reaches(spec, s, after, s')
    ensures |s'.children| == |s.children| && s'.generation == s.generation
    ensures s'.status == Crashloop || (s'.status == Stopped && s'.stopping)
  {
    ReachableInv(spec, before, s);
    CrashloopRun(spec, s, after, s');
  }
}
