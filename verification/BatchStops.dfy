/** How a stop shows in the codes a run writes: what the judge's verdict decides, and the one case it does not. */
module BatchStops {
  import opened Text
  import opened RecordFile
  import opened DispatchOrder
  import opened BatchRun
  import opened BatchSafety
  import opened BatchDisk

  /** In every reachable state of a run, a result it wrote as "cancelled" was written under a cancel
      verdict and after the abort, and one written as "interrupted" after the abort; under a cancel
      verdict the latter happens only to a request that had failed before the abort. */
  lemma CodesFitTheVerdict(c: Config, rd: Reader, evs: seq<Event>, d: Directory, k: nat)
    requires History(c, Empty(rd), evs, d) && d.s.run.Some? && !d.s.run.value.phase.Interrupting?
    requires d.s.run.value.base <= k < |d.s.log.errs|
    ensures var r, e := d.s.run.value, d.s.log.errs[k];
            && (e.code == Cancelled ==> r.verdict == Some(true) && r.aborted && r.noted)
            && (e.code == Interrupted ==> r.aborted && (r.verdict == Some(true) ==> e.line in r.early))
  {
    FromEmpty(c, rd, evs, d);
    assert Written(d.s.log, d.s.failures, d.s.run.value);
    assert Labelled(d.s.run.value, d.s.log.errs[k]);
  }

  /** The second guard of the error switch gives "interrupted" exactly after the abort. It does so under a
      cancel verdict exactly for a request whose error was first looked at before the abort; every other
      request that gets this far is interrupted under a verdict that was not a cancel. */
  lemma WrongCodeExactly(c: Config, rd: Reader, evs: seq<Event>, d: Directory, w: nat, rest: string)
    requires History(c, Empty(rd), evs, d) && d.s.run.Some? && CanWork(d.s.run.value, w, FailSecond(rest))
    ensures var r := d.s.run.value;
            var code := NextWorker(r, w, FailSecond(rest)).e.code;
            && code == (if r.aborted then Interrupted else RequestFailed)
            && (code == Interrupted && r.verdict == Some(true) <==>
                r.workers[w].n in r.early && r.aborted && r.verdict == Some(true))
            && (r.workers[w].n !in r.early ==> code == Interrupted && r.verdict != Some(true))
  {
    FromEmpty(c, rd, evs, d);
    var r := d.s.run.value;
    assert Live(c, d.s.log, d.s.failures, r);
    assert WorkerInv(c, ViewOf(d.s.log), r, r.workers[w]);
    assert Stopping(r);
  }

  lemma {:induction false} HistoryAppend(c: Config, d: Directory, evs: seq<Event>, d': Directory, ev: Event)
    requires History(c, d, evs, d') && Possible(c, d', ev)
    ensures History(c, d, evs + [ev], Apply(c, d', ev))
    decreases |evs|
  {
    if evs == [] {
      assert (evs + [ev])[1..] == [];
    } else {
      HistoryAppend(c, Apply(c, d, evs[0]), evs[1..], d', ev);
      assert (evs + [ev])[1..] == evs[1..] + [ev];
    }
  }

  lemma TakeOne(c: Config, rd: Reader, evs: seq<Event>, d: Directory, step: Step)
    returns (evs': seq<Event>, d': Directory)
    requires History(c, Empty(rd), evs, d) && Enabled(c, d.s, step) && !step.Open?
    ensures History(c, Empty(rd), evs', d') && d'.s == Do(c, d.s, step)
  {
    HistoryAppend(c, Empty(rd), evs, d, Take(step));
    evs', d' := evs + [Take(step)], Apply(c, d, Take(step));
  }

  // ---- one line, one worker ----

  const EXAMPLE := Config([7], 1)

  /** The example's run with its worker at `x`, nothing written as a result yet. */
  function ExampleRun(phase: Phase, x: Worker): Run {
    Run(Snapshot({}, {}, 0, 0), [0], [x], phase, false, None, false, false, false, false, 0, 0, {}, {}, 0, 0, {}, 0)
  }

  lemma ExampleOpens() returns (evs: seq<Event>, d: Directory)
    ensures History(EXAMPLE, Empty(OWN_READER), evs, d)
    ensures d.s == State(Some(ExampleRun(Interrupting, Idle)), Log([], [], [], []), 0, None, map[], {})
  {
    FromEmpty(EXAMPLE, OWN_READER, [], Empty(OWN_READER));
    OpenReadsLog(EXAMPLE, Empty(OWN_READER));
    var known := Snapshot({}, {}, 0, 0);
    assert Whole(INIT.log) == known;
    assert Identity(1) == [0];
    var step := Open(1, [0], known);
    HistoryAppend(EXAMPLE, Empty(OWN_READER), [], Empty(OWN_READER), Take(step));
    evs, d := [] + [Take(step)], Apply(EXAMPLE, Empty(OWN_READER), Take(step));
    assert OpenRun(1, [0], known, 0).workers == [Idle];
  }

  lemma ExampleHandsOut() returns (evs: seq<Event>, d: Directory)
    ensures History(EXAMPLE, Empty(OWN_READER), evs, d)
    ensures d.s == State(Some(ExampleRun(Dispatching(1), Handed(0))), Log([], [], [], []), 0, None, map[], {})
  {
    evs, d := ExampleOpens();
    evs, d := TakeOne(EXAMPLE, OWN_READER, evs, d, Dispatcher(Begin));
    assert d.s.run.value == ExampleRun(Dispatching(0), Idle);
    evs, d := TakeOne(EXAMPLE, OWN_READER, evs, d, Dispatcher(Look));
    assert d.s.run.value == ExampleRun(Selecting(0), Idle);
    evs, d := TakeOne(EXAMPLE, OWN_READER, evs, d, Dispatcher(HandOut(0)));
    assert d.s.run.value.workers == [Handed(0)];
  }

  lemma ExampleSends() returns (evs: seq<Event>, d: Directory)
    ensures History(EXAMPLE, Empty(OWN_READER), evs, d)
    ensures d.s == State(Some(ExampleRun(Dispatching(1), InFlight(0))), Log([0], [], [], [0]), 0, None, map[], {})
  {
    evs, d := ExampleHandsOut();
    evs, d := TakeOne(EXAMPLE, OWN_READER, evs, d, Work(0, Mark));
    assert d.s.run.value.workers == [Marked(0)] && d.s.log.marks == [0];
    evs, d := TakeOne(EXAMPLE, OWN_READER, evs, d, Work(0, Leave));
    assert d.s.run.value.workers == [InFlight(0)] && d.s.log.left == [0];
  }

  /** The request fails, its error is looked at, and only then the cancelled run aborts its requests. */
  lemma ExampleFails() returns (evs: seq<Event>, d: Directory)
    ensures History(EXAMPLE, Empty(OWN_READER), evs, d)
    ensures var r := ExampleRun(Dispatching(1), Unlabelled(0));
            d.s == State(Some(r.(stopped := true, verdict := Some(true), aborted := true, early := {0})),
                         Log([0], [], [], [0]), 0, None, map[0 := Broken], {})
  {
    evs, d := ExampleSends();
    evs, d := TakeOne(EXAMPLE, OWN_READER, evs, d, Control(Stop));
    evs, d := TakeOne(EXAMPLE, OWN_READER, evs, d, Control(Judge(true)));
    assert ValidRest("}");
    evs, d := TakeOne(EXAMPLE, OWN_READER, evs, d, Work(0, FailFirst("}")));
    assert d.s.run.value.early == {0} && d.s.run.value.workers == [Unlabelled(0)];
    evs, d := TakeOne(EXAMPLE, OWN_READER, evs, d, Control(Abort));
  }

  /** So "interrupted" does get written under a cancel verdict, and nothing is noted as cancelled. */
  lemma InterruptedUnderCancel() returns (evs: seq<Event>, d: Directory)
    ensures History(EXAMPLE, Empty(OWN_READER), evs, d) && d.s.run.Some? && d.s.run.value.verdict == Some(true)
    ensures d.s.log.errs == [Entry(0, Interrupted, "}")] && d.s.run.value.base == 0 && !d.s.run.value.noted
  {
    evs, d := ExampleFails();
    assert ValidRest("}");
    evs, d := TakeOne(EXAMPLE, OWN_READER, evs, d, Work(0, FailSecond("}")));
    evs, d := TakeOne(EXAMPLE, OWN_READER, evs, d, Work(0, WriteResult(Landed)));
  }

  /** The request is aborted by the cancel while its answer is being read. */
  lemma ExampleAborts() returns (evs: seq<Event>, d: Directory)
    ensures History(EXAMPLE, Empty(OWN_READER), evs, d)
    ensures var r := ExampleRun(Dispatching(1), Answering(Entry(0, RequestFailed, "}"), false));
            d.s == State(Some(r.(stopped := true, verdict := Some(true), aborted := true)),
                         Log([0], [], [], [0]), 0, None, map[0 := Unread], {})
  {
    evs, d := ExampleSends();
    evs, d := TakeOne(EXAMPLE, OWN_READER, evs, d, Control(Stop));
    evs, d := TakeOne(EXAMPLE, OWN_READER, evs, d, Control(Judge(true)));
    evs, d := TakeOne(EXAMPLE, OWN_READER, evs, d, Control(Abort));
    assert ValidRest("}");
    evs, d := TakeOne(EXAMPLE, OWN_READER, evs, d, Work(0, AnswerUnreadable("}")));
    assert d.s.run.value.workers == [Answering(Entry(0, RequestFailed, "}"), false)];
  }

  lemma ExampleWrites() returns (evs: seq<Event>, d: Directory)
    ensures History(EXAMPLE, Empty(OWN_READER), evs, d)
    ensures var r := ExampleRun(Draining(1), Idle);
            d.s == State(Some(r.(stopped := true, verdict := Some(true), aborted := true, failed := 1)),
                         Log([0], [], [Entry(0, RequestFailed, "}")], [0]), 0, None, map[0 := Unread], {})
  {
    evs, d := ExampleAborts();
    evs, d := TakeOne(EXAMPLE, OWN_READER, evs, d, Work(0, WriteResult(Landed)));
    assert d.s.run.value.workers == [Idle] && d.s.log.errs == [Entry(0, RequestFailed, "}")];
    evs, d := TakeOne(EXAMPLE, OWN_READER, evs, d, Dispatcher(LeaveDispatch(false)));
  }

  /** It is written as a failure, and the run returns from its cancel as if nothing had been cut short. */
  lemma AbortUnnoticed() returns (evs: seq<Event>, d: Directory)
    ensures History(EXAMPLE, Empty(OWN_READER), evs, d) && d.s.log.errs == [Entry(0, RequestFailed, "}")]
    ensures d.s.ended == Some(Outcome(true, true, 0, 1, false, false, false))
  {
    evs, d := ExampleWrites();
    evs, d := TakeOne(EXAMPLE, OWN_READER, evs, d, Return);
  }
}
