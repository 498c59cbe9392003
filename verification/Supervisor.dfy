/**
 One process record of the supervisor (internal/agent/supervisor.go) as a state machine. The actors
 are the launch path (with the restart logic it turns into), one reaper per published generation, any
 number of concurrent Stop calls, and the children themselves. Each region under the record's lock is
 one step; steps of different actors interleave freely.
 */
module Supervisor {

  /** The spec after registration's defaults. */
  datatype Spec = Spec(restart: bool, maxRestarts: int)

  datatype Status = Starting | Running | Stopped | Failed | Crashloop

  /** A spawned child. `gen` is the generation it was published as, 0 for none; `waits` counts the
      cmd.Wait calls that have returned for it. */
  datatype Child = Child(alive: bool, termed: bool, killed: bool, waits: nat, gen: nat)

  /** A generation's reaper; `Closed` is the closed `exited` channel. */
  datatype Reaper = Waiting | Waited(err: bool) | Noted | Closed

  /** Where the launch path is. */
  datatype Pc =
    | Spawning                // launchProc, before cmd.Start
    | Spawned(c: nat)         // started, the lock not yet taken
    | Doomed(c: nat)          // saw `stopping` under the lock; the child is to be killed
    | Probing(g: nat)         // published, readiness not yet known
    | ProbeFailed(g: nat)     // marked failed, its context not yet cancelled
    | LaunchFailed            // launchProc returned an error
    | Reporting               // the relaunch failed and was not stopped
    | Supervising(g: nat)     // superviseExit waits for the generation to be reaped
    | Deciding(k: nat)        // the exit is recorded; k restarts so far
    | Sleeping(k: nat)        // the restart back-off
    | Over

  /** One Stop call and the generation it snapshotted, 0 for none. */
  datatype Stopper = Terminating(g: nat) | Awaiting(g: nat) | Finishing(g: nat) | Cancelling(g: nat) | Done(g: nat)

  datatype State = State(
    stopping: bool,
    generation: nat,
    status: Status,
    pending: bool,
    restarts: nat,
    exitErr: bool,
    children: seq<Child>,
    published: seq<nat>,      // the child of each generation
    reapers: seq<Reaper>,     // the reaper of each generation
    orphans: set<nat>,        // unpublished children with a Wait of their own
    pc: Pc,
    stoppers: seq<Stopper>,
    attempts: nat,            // launchProc calls; the first is the caller's, the others are relaunches
    // history
    resets: nat,              // restart counters reset after a stable generation
    spent: nat                // restarts those resets forgot
  )

  const INIT := State(false, 0, Starting, false, 0, false, [], [], [], {}, Spawning, [], 1, 0, 0)

  datatype LaunchStep =
    | SpawnOk | SpawnFails | TakeLock | KillDoomed | ProbeOk | ProbeFails | CancelProbed | GiveUp(async: bool) | Report

  datatype ReapStep = Collect(err: bool) | Note | Close

  datatype SuperviseStep = Settle(stable: bool) | Decide | Wake

  datatype StopStep = Term | SeeExit | Kill | Finish | Cancel

  datatype Step =
    | Launch(l: LaunchStep)
    | Reap(g: nat, r: ReapStep)
    | ReapOrphan(c: nat)
    | Supervise(v: SuperviseStep)
    | StopBegins
    | Stop(i: nat, t: StopStep)
    | Exit(c: nat)

  predicate Reaped(s: State, g: nat) {
    1 <= g <= |s.reapers| && s.reapers[g - 1].Closed?
  }

  function SetChild(s: State, c: nat, x: Child): State
    requires c < |s.children|
  {
    s.(children := s.children[c := x])
  }

  /** SIGKILL to the child published as `g`: what cancelling its context, or the end of Stop's wait, does. */
  function KillGeneration(s: State, g: nat): State {
    if 1 <= g <= |s.published| && s.published[g - 1] < |s.children|
    then SetChild(s, s.published[g - 1], s.children[s.published[g - 1]].(killed := true))
    else s
  }

  function TermGeneration(s: State, g: nat): State {
    if 1 <= g <= |s.published| && s.published[g - 1] < |s.children|
    then SetChild(s, s.published[g - 1], s.children[s.published[g - 1]].(termed := true))
    else s
  }

  // ---- the launch path ----

  predicate CanLaunch(s: State, l: LaunchStep) {
    match l
    case SpawnOk => s.pc.Spawning?
    case SpawnFails => s.pc.Spawning?
    case TakeLock => s.pc.Spawned? && s.pc.c < |s.children|
    case KillDoomed => s.pc.Doomed? && s.pc.c < |s.children|
    case ProbeOk => s.pc.Probing?
    case ProbeFails => s.pc.Probing?
    case CancelProbed => s.pc.ProbeFailed?
    case GiveUp(_) => s.pc.LaunchFailed?
    case Report => s.pc.Reporting?
  }

  function Publish(s: State, c: nat): State
    requires c < |s.children|
  {
    s.(generation := s.generation + 1, status := Starting, pending := false, exitErr := false,
       children := s.children[c := s.children[c].(gen := s.generation + 1)],
       published := s.published + [c], reapers := s.reapers + [Waiting], pc := Probing(s.generation + 1))
  }

  function Launched(s: State, l: LaunchStep): State
    requires CanLaunch(s, l)
  {
    match l
    case SpawnOk => s.(children := s.children + [Child(true, false, false, 0, 0)], pc := Spawned(|s.children|))
    case SpawnFails => s.(pc := LaunchFailed)
    case TakeLock => if s.stopping then s.(pc := Doomed(s.pc.c)) else Publish(s, s.pc.c)
    case KillDoomed =>
      SetChild(s, s.pc.c, s.children[s.pc.c].(killed := true)).(orphans := s.orphans + {s.pc.c}, pc := LaunchFailed)
    case ProbeOk => s.(status := Running, pc := Supervising(s.pc.g))
    case ProbeFails => s.(status := Failed, pc := ProbeFailed(s.pc.g))
    case CancelProbed => KillGeneration(s, s.generation).(pc := LaunchFailed)
    case GiveUp(async) =>
      if s.attempts == 1 then (if async then s.(status := Failed, pc := Over) else s.(pc := Over))
      else if s.stopping then s.(pc := Over)
      else s.(pc := Reporting)
    case Report => s.(status := Failed, pending := false, pc := Over)
  }

  // ---- reapers and children ----

  predicate CanReap(s: State, g: nat, r: ReapStep) {
    && 1 <= g <= |s.reapers| && g <= |s.published| && s.published[g - 1] < |s.children|
    && match r
       case Collect(_) => s.reapers[g - 1].Waiting? && !s.children[s.published[g - 1]].alive
       case Note => s.reapers[g - 1].Waited?
       case Close => s.reapers[g - 1].Noted?
  }

  function Reaping(s: State, g: nat, r: ReapStep): State
    requires CanReap(s, g, r)
  {
    match r
    case Collect(err) =>
      var c := s.published[g - 1];
      SetChild(s, c, s.children[c].(waits := s.children[c].waits + 1)).(reapers := s.reapers[g - 1 := Waited(err)])
    case Note =>
      var s' := s.(reapers := s.reapers[g - 1 := Noted]);
      if s.generation == g then s'.(exitErr := s.reapers[g - 1].err) else s'
    case Close => s.(reapers := s.reapers[g - 1 := Closed])
  }

  function OrphanReaped(s: State, c: nat): State
    requires c < |s.children|
  {
    s.(children := s.children[c := s.children[c].(waits := s.children[c].waits + 1)], orphans := s.orphans - {c})
  }

  // ---- the restart logic ----

  predicate CanSupervise(s: State, v: SuperviseStep) {
    match v
    case Settle(_) => s.pc.Supervising? && Reaped(s, s.pc.g)
    case Decide => s.pc.Deciding?
    case Wake => s.pc.Sleeping?
  }

  function Supervised(spec: Spec, s: State, v: SuperviseStep): State
    requires CanSupervise(s, v)
  {
    match v
    case Settle(stable) =>
      if s.generation != s.pc.g then s.(pc := Over)
      else if s.stopping then s.(status := Stopped, pc := Over)
      else
        var k := if stable then 0 else s.restarts;
        s.(restarts := k, resets := s.resets + (if stable then 1 else 0),
           spent := s.spent + (if stable then s.restarts else 0),
           status := if s.exitErr then Failed else Stopped, pc := Deciding(k))
    case Decide =>
      if !spec.restart then s.(pc := Over)
      else if spec.maxRestarts > 0 && s.pc.k >= spec.maxRestarts then s.(status := Crashloop, pc := Over)
      else s.(pending := s.pending || !s.stopping, pc := Sleeping(s.pc.k))
    case Wake =>
      if s.stopping then s.(pending := false, pc := Over)
      else s.(restarts := s.pc.k + 1, attempts := s.attempts + 1, pc := Spawning)
  }

  // ---- Stop ----

  /** The first locked region of Stop: the intent, and a snapshot of the current generation. */
  function Stopping(s: State): State {
    var g := s.generation;
    s.(stopping := true, stoppers := s.stoppers + [if g > 0 && !Reaped(s, g) then Terminating(g) else Finishing(g)])
  }

  predicate CanStop(s: State, i: nat, t: StopStep) {
    && i < |s.stoppers|
    && match t
       case Term => s.stoppers[i].Terminating?
       case SeeExit => s.stoppers[i].Awaiting? && Reaped(s, s.stoppers[i].g)
       case Kill => s.stoppers[i].Awaiting?
       case Finish => s.stoppers[i].Finishing?
       case Cancel => s.stoppers[i].Cancelling?
  }

  function StopContinued(s: State, i: nat, t: StopStep): State
    requires CanStop(s, i, t)
  {
    var g := s.stoppers[i].g;
    match t
    case Term => TermGeneration(s, g).(stoppers := s.stoppers[i := Awaiting(g)])
    case SeeExit => s.(stoppers := s.stoppers[i := Finishing(g)])
    case Kill => KillGeneration(s, g).(stoppers := s.stoppers[i := Finishing(g)])
    case Finish => s.(status := Stopped, pending := false, stoppers := s.stoppers[i := Cancelling(g)])
    case Cancel => KillGeneration(s, g).(stoppers := s.stoppers[i := Done(g)])
  }

  predicate Enabled(s: State, step: Step) {
    match step
    case Launch(l) => CanLaunch(s, l)
    case Reap(g, r) => CanReap(s, g, r)
    case ReapOrphan(c) => c in s.orphans && c < |s.children| && !s.children[c].alive
    case Supervise(v) => CanSupervise(s, v)
    case StopBegins => true
    case Stop(i, t) => CanStop(s, i, t)
    case Exit(c) => c < |s.children|
  }

  function Do(spec: Spec, s: State, step: Step): State
    requires Enabled(s, step)
  {
    match step
    case Launch(l) => Launched(s, l)
    case Reap(g, r) => Reaping(s, g, r)
    case ReapOrphan(c) => OrphanReaped(s, c)
    case Supervise(v) => Supervised(spec, s, v)
    case StopBegins => Stopping(s)
    case Stop(i, t) => StopContinued(s, i, t)
    case Exit(c) => SetChild(s, c, s.children[c].(alive := false))
  }

  ghost predicate Reaches(spec: Spec, s: State, steps: seq<Step>, s': State)
    decreases |steps|
  {
    if steps == [] then s == s'
    else Enabled(s, steps[0]) && Reaches(spec, Do(spec, s, steps[0]), steps[1..], s')
  }
}
