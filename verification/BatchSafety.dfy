/** What every step of every run keeps, and what follows for whole histories of a work directory. */
module BatchSafety {
  import opened Text
  import opened RecordFile
  import opened DispatchOrder
  import opened BatchRun

  // ---- the invariant ----

  /** The part of the disk and the history that delivery depends on. */
  datatype View = View(marked: set<nat>, answered: set<nat>, left: set<nat>)

  function ViewOf(l: Log): View {
    View(ToSet(l.marks), AnsweredLines(l), ToSet(l.left))
  }

  ghost predicate Records(l: Log) {
    && Distinct(LinesOf(l.outs)) && Distinct(LinesOf(l.errs)) && Distinct(l.left)
    && ToSet(LinesOf(l.outs)) !! ToSet(LinesOf(l.errs))
  }

  /** A request that left has its mark on disk. */
  ghost predicate Known(c: Config, v: View) {
    && v.left <= v.marked
    && (forall n | n in v.marked :: n < c.Total())
    && (forall n | n in v.answered :: n < c.Total())
  }

  ghost predicate Leftovers(v: View, r: Run) {
    && (forall w | 0 <= w < |r.workers| :: r.workers[w].Idle?)
    && !r.fatal && !r.cancelled && r.verdict.None? && !r.aborted && r.late == 0
    && r.lost == {} && r.early == {}
    && v.marked == r.known.sent && r.interrupted <= r.known.sent
    && v.answered == r.known.finished + r.interrupted
  }

  /** How far the dispatcher has come. */
  function Position(r: Run): nat {
    if r.phase.Interrupting? then 0 else r.phase.i
  }

  /** `n` is among the first `k` of the order. */
  predicate Among(order: seq<nat>, k: nat, n: nat) {
    0 < k <= |order| && (order[k - 1] == n || Among(order, k - 1, n))
  }

  lemma {:induction false} AmongAt(order: seq<nat>, k: nat, n: nat)
    requires k <= |order|
    ensures Among(order, k, n) <==> exists j | 0 <= j < k :: order[j] == n
  {
    if 0 < k {
      AmongAt(order, k - 1, n);
    }
  }

  /** The dispatcher has come past line `n`. */
  ghost predicate Passed(r: Run, n: nat) {
    Among(r.order, Position(r), n)
  }

  /** What the code of an answer of this run says about the stop it came from. */
  ghost predicate Labelled(r: Run, e: Entry) {
    && (e.code == Cancelled ==> r.verdict == Some(true) && r.aborted && r.noted)
    && (e.code == Interrupted ==> r.aborted && (r.verdict == Some(true) ==> e.line in r.early))
  }

  ghost predicate WorkerInv(c: Config, v: View, r: Run, x: Worker) {
    && x.Line() < c.Total() && x.Line() !in v.answered && x.Line() !in r.lost && Passed(r, x.Line())
    && (x.Handed? ==> x.n !in v.marked)
    && (x.Marked? ==> x.n in v.marked && x.n !in v.left)
    && (x.Answering? ==> Labelled(r, x.e))
    && (x.Unlabelled? ==> x.n in r.early || (r.aborted && r.verdict != Some(true)))
  }

  ghost predicate Apart(ws: seq<Worker>) {
    forall v, w | 0 <= v < w < |ws| && !ws[v].Idle? && !ws[w].Idle? :: ws[v].Line() != ws[w].Line()
  }

  ghost predicate Workers(c: Config, v: View, r: Run) {
    && (forall w | 0 <= w < |r.workers| && !r.workers[w].Idle? :: WorkerInv(c, v, r, r.workers[w]))
    && Apart(r.workers)
  }

  /** Lines ahead of the dispatcher are untouched; lines behind it are answered, held or lost. */
  ghost predicate Ahead(v: View, r: Run) {
    forall j | Position(r) <= j < |r.order| && !Skipped(r, r.order[j]) ::
      r.order[j] !in v.marked && r.order[j] !in v.answered
  }

  ghost predicate Behind(v: View, r: Run) {
    && (forall j | 0 <= j < |r.order| && j < Position(r) ::
          r.order[j] in v.answered || r.order[j] in Held(r.workers) || r.order[j] in r.lost)
    && (forall n | n in v.marked :: n in v.answered || n in Held(r.workers) || n in r.lost)
    && r.known.finished <= v.answered && r.known.sent <= v.answered
    && r.lost !! v.answered && (r.lost != {} ==> r.fatal) && (forall n | n in r.lost :: Passed(r, n))
  }

  ghost predicate Phases(r: Run) {
    && Position(r) <= |r.order|
    && (r.phase.Selecting? ==> r.phase.i < |r.order| && !Skipped(r, r.order[r.phase.i]))
    && (r.phase.Draining? ==> r.phase.i == |r.order| || r.cancelled || r.fatal)
    && (!r.phase.Draining? ==> !r.cancelled)
  }

  ghost predicate Stopping(r: Run) {
    && (r.verdict.Some? ==> r.stopped)
    && (r.aborted ==> r.verdict.Some?)
    && (r.cancelled ==> r.stopped)
    && r.late <= 1
    && (r.late == 1 ==> r.stopped && !r.phase.Selecting?)
  }

  ghost predicate Static(c: Config, r: Run) {
    1 <= |r.workers| <= c.limit && Permutation(r.order, c.Total())
  }

  ghost predicate RunInv(c: Config, v: View, r: Run) {
    match r.phase
    case Interrupting => Static(c, r) && Stopping(r) && Leftovers(v, r)
    case _ => Static(c, r) && Stopping(r) && Workers(c, v, r) && Ahead(v, r) && Behind(v, r) && Phases(r)
  }

  /** The counts are those of the files, the codes written fit the stop, and failed writes are counted. */
  ghost predicate Written(l: Log, failures: nat, r: Run) {
    && (!r.fatal ==> r.completed == |l.outs| && r.failed == |l.errs|)
    && r.base <= |l.errs|
    && (!r.phase.Interrupting? ==> forall k | r.base <= k < |l.errs| :: Labelled(r, l.errs[k]))
    && |r.lost| <= failures
  }

  ghost predicate EndedInv(c: Config, l: Log, o: Outcome) {
    && (!o.error ==>
          && o.completed == |l.outs| && o.failed == |l.errs|
          && (o.resumable <==> o.stopped && !o.cancelStop && o.completed + o.failed < c.Total())
          && (!o.cancelled && !o.resumable ==> o.completed + o.failed == c.Total()))
    && (o.cancelled ==> o.stopped && o.cancelStop)
  }

  ghost predicate Disk(c: Config, l: Log) {
    Records(l) && Known(c, ViewOf(l))
  }

  /** A run in progress. */
  ghost predicate Live(c: Config, l: Log, failures: nat, r: Run) {
    Disk(c, l) && RunInv(c, ViewOf(l), r) && Written(l, failures, r)
  }

  ghost predicate Inv(c: Config, s: State) {
    match s.run
    case None => Disk(c, s.log) && (s.ended.Some? ==> EndedInv(c, s.log, s.ended.value))
    case Some(r) => s.ended.None? && Live(c, s.log, s.failures, r)
  }

  // ---- sets of lines ----

  lemma ToSetAppend(ns: seq<nat>, n: nat)
    ensures ToSet(ns + [n]) == ToSet(ns) + {n}
  {
  }

  lemma LinesOfAppend(es: seq<Entry>, e: Entry)
    ensures LinesOf(es + [e]) == LinesOf(es) + [e.line]
    ensures ToSet(LinesOf(es + [e])) == ToSet(LinesOf(es)) + {e.line}
  {
    assert LinesOf(es + [e]) == LinesOf(es) + [e.line];
    ToSetAppend(LinesOf(es), e.line);
  }

  lemma DistinctAppend(ns: seq<nat>, n: nat)
    requires Distinct(ns) && n !in ToSet(ns)
    ensures Distinct(ns + [n])
  {
    assert forall i | 0 <= i < |ns| :: ns[i] in ns;
  }

  lemma {:induction false} DistinctSize(ns: seq<nat>)
    requires Distinct(ns)
    ensures |ToSet(ns)| == |ns|
  {
    if ns != [] {
      var init, last := ns[..|ns| - 1], ns[|ns| - 1];
      DistinctSize(init);
      assert ns == init + [last];
      ToSetAppend(init, last);
    }
  }

  /** The number of results is the number of answered lines. */
  lemma AnsweredSize(l: Log)
    requires Records(l)
    ensures |AnsweredLines(l)| == |l.outs| + |l.errs|
  {
    DistinctSize(LinesOf(l.outs));
    DistinctSize(LinesOf(l.errs));
  }

  function Below(n: nat): (r: set<nat>)
    ensures forall m: nat :: m in r <==> m < n
    ensures |r| == n
  {
    if n == 0 then {} else Below(n - 1) + {n - 1}
  }

  lemma SubsetSize(a: set<nat>, b: set<nat>)
    requires a <= b
    ensures |a| <= |b|
    ensures |a| == |b| ==> a == b
  {
    assert b == a + (b - a);
  }

  lemma {:induction false} HeldSize(ws: seq<Worker>)
    ensures |Held(ws)| <= |ws|
  {
    if ws == [] {
      assert Held(ws) == {};
    } else {
      var init := ws[..|ws| - 1];
      HeldSize(init);
      SubsetSize(Held(ws), Held(init) + {ws[|ws| - 1].Line()});
    }
  }

  lemma HeldUpdate(ws: seq<Worker>, w: nat, x: Worker)
    requires w < |ws| && Apart(ws)
    ensures Held(ws[w := x]) ==
            (if ws[w].Idle? then Held(ws) else Held(ws) - {ws[w].Line()}) + (if x.Idle? then {} else {x.Line()})
  {
    var ws' := ws[w := x];
    assert forall v | 0 <= v < |ws| && v != w :: ws'[v] == ws[v];
    assert ws'[w] == x;
    forall n | n in Held(ws) && (ws[w].Idle? || n != ws[w].Line()) ensures n in Held(ws') {
      var v :| 0 <= v < |ws| && !ws[v].Idle? && ws[v].Line() == n;
      assert ws'[v] == ws[v];
    }
  }

  /** Lines in flight are at most the workers' plus those whose answer could not be written. */
  lemma HeldAndLost(r: Run, ns: set<nat>)
    requires ns <= Held(r.workers) + r.lost
    ensures |ns| <= |r.workers| + |r.lost|
  {
    var held := Held(r.workers);
    HeldSize(r.workers);
    SubsetSize(ns, held + r.lost);
    assert held + r.lost == held + (r.lost - held);
    SubsetSize(r.lost - held, r.lost);
  }

  // ---- what a write adds ----

  lemma AnsweredAdded(l: Log, e: Entry, ok: bool)
    ensures AnsweredLines(AddResult(l, e, ok)) == AnsweredLines(l) + {e.line}
  {
    LinesOfAppend(if ok then l.outs else l.errs, e);
  }

  lemma RecordsAdded(l: Log, e: Entry, ok: bool)
    requires Records(l) && e.line !in AnsweredLines(l)
    ensures Records(AddResult(l, e, ok))
  {
    var es := if ok then l.outs else l.errs;
    LinesOfAppend(es, e);
    DistinctAppend(LinesOf(es), e.line);
  }

  lemma ResultAdded(l: Log, e: Entry, ok: bool)
    requires Records(l) && e.line !in AnsweredLines(l)
    ensures Records(AddResult(l, e, ok))
    ensures ViewOf(AddResult(l, e, ok)) == ViewOf(l).(answered := AnsweredLines(l) + {e.line})
  {
    RecordsAdded(l, e, ok);
    AnsweredAdded(l, e, ok);
  }

  lemma MarkAdded(l: Log, n: nat)
    requires Records(l)
    ensures Records(AddMark(l, n))
    ensures ViewOf(AddMark(l, n)) == ViewOf(l).(marked := ToSet(l.marks) + {n})
  {
    ToSetAppend(l.marks, n);
  }

  // ---- leftovers and the start ----

  lemma Opens(c: Config, l: Log, failures: nat, k: nat, order: seq<nat>)
    requires Disk(c, l) && 1 <= k <= c.limit
    requires order == Identity(c.Total()) || Grouped(c.prefix, order)
    ensures Live(c, l, failures, OpenRun(k, order, Whole(l), failures))
  {
    RearrangedIsPermutation(Identity(c.Total()), c.Total());
  }

  lemma LeftoverAnswered(c: Config, v: View, r: Run, n: nat)
    requires RunInv(c, v, r) && Known(c, v) && r.phase.Interrupting? && Leftover(c, r, n)
    ensures n !in v.answered && Known(c, v.(answered := v.answered + {n}))
    ensures RunInv(c, v.(answered := v.answered + {n}), r.(failed := r.failed + 1, interrupted := r.interrupted + {n}))
  {
  }

  lemma LeftoverLogged(c: Config, l: Log, failures: nat, r: Run, e: Entry)
    requires Live(c, l, failures, r) && r.phase.Interrupting? && Leftover(c, r, e.line)
    ensures Live(c, AddResult(l, e, false), failures,
                 r.(failed := r.failed + 1, interrupted := r.interrupted + {e.line}))
  {
    LeftoverAnswered(c, ViewOf(l), r, e.line);
    ResultAdded(l, e, false);
  }

  lemma Begins(c: Config, l: Log, failures: nat, r: Run)
    requires Live(c, l, failures, r) && r.phase.Interrupting? && forall n :: !Leftover(c, r, n)
    ensures Live(c, l, failures, r.(phase := Dispatching(0), base := |l.errs|))
  {
    var r' := r.(phase := Dispatching(0), base := |l.errs|);
    assert Held(r'.workers) == {};
    var v := ViewOf(l);
    forall n | n in r.known.sent ensures n in v.answered {
      assert !Leftover(c, r, n);
    }
  }

  lemma StopsBeforeReady(c: Config, l: Log, failures: nat, r: Run, cancel: bool)
    requires Live(c, l, failures, r) && r.phase.Interrupting? && r.stopped
    ensures EndedInv(c, l, Verdict(c, r, cancel))
  {
    AnsweredSize(l);
    SubsetSize(AnsweredLines(l), Below(c.Total()));
  }

  // ---- the dispatcher ----

  /** Moving the dispatcher forward forgets nothing about the workers. */
  lemma StillPassed(c: Config, v: View, r: Run, r': Run)
    requires Workers(c, v, r) && Behind(v, r) && Position(r) <= Position(r') <= |r.order|
    requires r' == r.(phase := r'.phase, cancelled := r'.cancelled)
    ensures Workers(c, v, r') && forall n | n in r.lost :: Passed(r', n)
  {
    forall n | Passed(r, n) ensures Passed(r', n) {
      AmongAt(r.order, Position(r), n);
      AmongAt(r.order, Position(r'), n);
    }
  }

  lemma DispatchMoves(c: Config, v: View, r: Run, phase: Phase, cancel: bool)
    requires RunInv(c, v, r) && !r.phase.Interrupting? && !phase.Interrupting?
    requires phase.i == r.phase.i || (phase.i == r.phase.i + 1 <= |r.order| && Skipped(r, r.order[r.phase.i]))
    requires Phases(r.(phase := phase, cancelled := cancel)) && Stopping(r.(phase := phase, cancelled := cancel))
    ensures RunInv(c, v, r.(phase := phase, cancelled := cancel))
  {
    StillPassed(c, v, r, r.(phase := phase, cancelled := cancel));
  }

  lemma HandedWorkers(c: Config, v: View, r: Run, w: nat)
    requires RunInv(c, v, r) && r.phase.Selecting? && w < |r.workers| && r.workers[w].Idle?
    ensures Workers(c, v, HandedOut(r, w))
    ensures forall n | n in r.lost :: Passed(HandedOut(r, w), n)
  {
    var i, n := r.phase.i, r.order[r.phase.i];
    var r1, r' := r.(phase := Dispatching(i + 1)), HandedOut(r, w);
    StillPassed(c, v, r, r1);
    AmongAt(r.order, i, n);
    assert !Passed(r, n);
    assert r'.order[i] == n && Passed(r', n);
  }

  lemma HandsOut(c: Config, v: View, r: Run, w: nat)
    requires RunInv(c, v, r) && r.phase.Selecting? && w < |r.workers| && r.workers[w].Idle?
    ensures RunInv(c, v, HandedOut(r, w))
  {
    HandedWorkers(c, v, r, w);
    HeldUpdate(r.workers, w, Handed(r.order[r.phase.i]));
  }

  // ---- the workers ----

  /** A worker goes on with its line; nothing on disk changes. */
  lemma WorkersMoved(c: Config, v: View, r: Run, w: nat, x: Worker)
    requires Workers(c, v, r) && w < |r.workers| && !r.workers[w].Idle?
    requires !x.Idle? && x.Line() == r.workers[w].Line() && WorkerInv(c, v, r, x)
    ensures Workers(c, v, r.(workers := r.workers[w := x]))
  {
  }

  lemma WorkerMoves(c: Config, v: View, r: Run, w: nat, x: Worker)
    requires RunInv(c, v, r) && !r.phase.Interrupting? && w < |r.workers| && !r.workers[w].Idle?
    requires !x.Idle? && x.Line() == r.workers[w].Line() && WorkerInv(c, v, r, x)
    ensures RunInv(c, v, r.(workers := r.workers[w := x]))
  {
    HeldUpdate(r.workers, w, x);
    WorkersMoved(c, v, r, w, x);
  }

  lemma WorkersMarked(c: Config, v: View, r: Run, w: nat, x: Worker)
    requires Workers(c, v, r) && w < |r.workers| && r.workers[w].Handed? && v.left <= v.marked
    requires x.Marked? || (x.Answering? && Labelled(r, x.e))
    requires x.Line() == r.workers[w].n
    ensures Workers(c, v.(marked := v.marked + {x.Line()}), r.(workers := r.workers[w := x]))
  {
  }

  lemma WorkerMarks(c: Config, v: View, r: Run, w: nat, x: Worker)
    requires RunInv(c, v, r) && !r.phase.Interrupting? && w < |r.workers| && r.workers[w].Handed?
    requires x.Marked? || (x.Answering? && Labelled(r, x.e))
    requires x.Line() == r.workers[w].n && v.left <= v.marked
    ensures x.Line() < c.Total()
    ensures RunInv(c, v.(marked := v.marked + {x.Line()}), r.(workers := r.workers[w := x]))
  {
    assert WorkerInv(c, v, r, r.workers[w]);
    AmongAt(r.order, Position(r), r.workers[w].Line());
    HeldUpdate(r.workers, w, x);
    WorkersMarked(c, v, r, w, x);
  }

  lemma WorkersLeft(c: Config, v: View, r: Run, w: nat)
    requires Workers(c, v, r) && w < |r.workers| && r.workers[w].Marked?
    ensures Workers(c, v.(left := v.left + {r.workers[w].n}), r.(workers := r.workers[w := InFlight(r.workers[w].n)]))
  {
  }

  lemma WorkerLeaves(c: Config, v: View, r: Run, w: nat)
    requires RunInv(c, v, r) && !r.phase.Interrupting? && w < |r.workers| && r.workers[w].Marked?
    ensures r.workers[w].n !in v.left && r.workers[w].n in v.marked
    ensures RunInv(c, v.(left := v.left + {r.workers[w].n}), r.(workers := r.workers[w := InFlight(r.workers[w].n)]))
  {
    var x := InFlight(r.workers[w].n);
    HeldUpdate(r.workers, w, x);
    WorkersLeft(c, v, r, w);
  }

  lemma WorkersAnswered(c: Config, v: View, r: Run, w: nat)
    requires Workers(c, v, r) && w < |r.workers| && r.workers[w].Answering?
    ensures Workers(c, v.(answered := v.answered + {r.workers[w].e.line}), r.(workers := r.workers[w := Idle]))
  {
  }

  lemma WorkerAnswered(c: Config, v: View, r: Run, w: nat)
    requires RunInv(c, v, r) && !r.phase.Interrupting? && w < |r.workers| && r.workers[w].Answering?
    ensures r.workers[w].e.line !in v.answered && r.workers[w].e.line < c.Total()
    ensures RunInv(c, v.(answered := v.answered + {r.workers[w].e.line}), r.(workers := r.workers[w := Idle]))
  {
    assert WorkerInv(c, v, r, r.workers[w]);
    AmongAt(r.order, Position(r), r.workers[w].Line());
    HeldUpdate(r.workers, w, Idle);
    WorkersAnswered(c, v, r, w);
  }

  lemma WorkersLost(c: Config, v: View, r: Run, w: nat)
    requires Workers(c, v, r) && w < |r.workers| && r.workers[w].Answering?
    ensures Workers(c, v, r.(workers := r.workers[w := Idle], fatal := true, lost := r.lost + {r.workers[w].e.line}))
  {
  }

  lemma WorkerLoses(c: Config, v: View, r: Run, w: nat)
    requires RunInv(c, v, r) && !r.phase.Interrupting? && w < |r.workers| && r.workers[w].Answering?
    ensures RunInv(c, v, r.(workers := r.workers[w := Idle], fatal := true, lost := r.lost + {r.workers[w].e.line}))
  {
    HeldUpdate(r.workers, w, Idle);
    WorkersLost(c, v, r, w);
  }

  /** Flags and counters that only grow more definite leave the invariant alone. */
  lemma FlagsMove(c: Config, v: View, r: Run, r': Run)
    requires RunInv(c, v, r) && Stopping(r')
    requires r' == r.(stopped := r'.stopped, verdict := r'.verdict, aborted := r'.aborted, noted := r'.noted,
                      fatal := r'.fatal, completed := r'.completed, failed := r'.failed, early := r'.early)
    requires (r.aborted ==> r'.aborted && r'.verdict == r.verdict) && (r.noted ==> r'.noted) && (r.fatal ==> r'.fatal)
    requires r.early <= r'.early
    requires r.phase.Interrupting? ==> r'.verdict.None? && !r'.aborted && !r'.fatal && r'.early == {}
    ensures RunInv(c, v, r')
    ensures forall e :: Labelled(r, e) ==> Labelled(r', e)
  {
  }

  // ---- one step ----

  lemma KnownGrows(c: Config, v: View, n: nat)
    requires Known(c, v) && n < c.Total()
    ensures Known(c, v.(marked := v.marked + {n})) && Known(c, v.(answered := v.answered + {n}))
    ensures n in v.marked ==> Known(c, v.(left := v.left + {n}))
  {
  }

  lemma Moved(c: Config, l: Log, failures: nat, r: Run, w: nat, x: Worker)
    requires Live(c, l, failures, r) && !r.phase.Interrupting? && w < |r.workers| && !r.workers[w].Idle?
    requires !x.Idle? && x.Line() == r.workers[w].Line() && WorkerInv(c, ViewOf(l), r, x)
    ensures Live(c, l, failures, r.(workers := r.workers[w := x]))
  {
    WorkerMoves(c, ViewOf(l), r, w, x);
  }

  lemma Flagged(c: Config, l: Log, failures: nat, r: Run, r': Run)
    requires Live(c, l, failures, r) && Stopping(r')
    requires r' == r.(stopped := r'.stopped, verdict := r'.verdict, aborted := r'.aborted, noted := r'.noted,
                      early := r'.early)
    requires (r.aborted ==> r'.aborted && r'.verdict == r.verdict) && (r.noted ==> r'.noted)
    requires r.early <= r'.early
    requires r.phase.Interrupting? ==> r'.verdict.None? && !r'.aborted && r'.early == {}
    ensures Live(c, l, failures, r')
  {
    FlagsMove(c, ViewOf(l), r, r');
  }

  lemma MarkOnDisk(c: Config, l: Log, n: nat)
    requires Disk(c, l) && n < c.Total()
    ensures Disk(c, AddMark(l, n))
  {
    KnownGrows(c, ViewOf(l), n);
    MarkAdded(l, n);
  }

  lemma MarkedRun(c: Config, l: Log, failures: nat, r: Run, w: nat, x: Worker)
    requires Live(c, l, failures, r) && !r.phase.Interrupting? && w < |r.workers| && r.workers[w].Handed?
    requires x.Marked? || (x.Answering? && Labelled(r, x.e))
    requires x.Line() == r.workers[w].n
    ensures x.Line() < c.Total()
    ensures RunInv(c, ViewOf(AddMark(l, x.Line())), r.(workers := r.workers[w := x]))
  {
    WorkerMarks(c, ViewOf(l), r, w, x);
    MarkAdded(l, x.Line());
  }

  lemma MarkWritten(l: Log, failures: nat, r: Run, ws: seq<Worker>, n: nat)
    requires Written(l, failures, r)
    ensures Written(AddMark(l, n), failures, r.(workers := ws))
  {
  }

  lemma LeftOnDisk(c: Config, l: Log, n: nat)
    requires Disk(c, l) && n in ToSet(l.marks) && n !in ToSet(l.left) && n < c.Total()
    ensures Disk(c, l.(left := l.left + [n]))
    ensures ViewOf(l.(left := l.left + [n])) == ViewOf(l).(left := ToSet(l.left) + {n})
  {
    KnownGrows(c, ViewOf(l), n);
    ToSetAppend(l.left, n);
    DistinctAppend(l.left, n);
  }

  lemma AnswerLogged(c: Config, l: Log, failures: nat, r: Run, w: nat)
    requires Disk(c, l) && RunInv(c, ViewOf(l), r)
    requires !r.phase.Interrupting? && w < |r.workers| && r.workers[w].Answering?
    ensures Disk(c, AddResult(l, r.workers[w].e, r.workers[w].ok))
    ensures RunInv(c, ViewOf(AddResult(l, r.workers[w].e, r.workers[w].ok)), r.(workers := r.workers[w := Idle]))
  {
    WorkerAnswered(c, ViewOf(l), r, w);
    KnownGrows(c, ViewOf(l), r.workers[w].e.line);
    ResultAdded(l, r.workers[w].e, r.workers[w].ok);
  }

  /** The run once its worker's answer has been written. */
  function Delivered(r: Run, w: nat, io: Write): Run
    requires w < |r.workers| && r.workers[w].Answering?
  {
    Counted(r.(workers := r.workers[w := Idle]), r.workers[w].e.line, r.workers[w].ok, io)
  }

  lemma AnswerWritten(l: Log, failures: nat, r: Run, w: nat, io: Write)
    requires Written(l, failures, r) && !r.phase.Interrupting? && !io.Lost?
    requires w < |r.workers| && r.workers[w].Answering? && Labelled(r, r.workers[w].e)
    ensures Written(AddResult(l, r.workers[w].e, r.workers[w].ok), failures, Delivered(r, w, io))
  {
  }

  lemma CountsMove(c: Config, v: View, r: Run, n: nat, ok: bool, io: Write)
    requires RunInv(c, v, r) && !r.phase.Interrupting? && !io.Lost?
    ensures RunInv(c, v, Counted(r, n, ok, io))
  {
    FlagsMove(c, v, r, Counted(r, n, ok, io));
  }

  /** Once every worker is done, a run that was not cut short has answered every line. */
  lemma AllAnswered(c: Config, v: View, r: Run)
    requires RunInv(c, v, r) && r.phase.Draining? && (forall w | 0 <= w < |r.workers| :: r.workers[w].Idle?)
    requires !r.cancelled && !r.fatal
    ensures Below(c.Total()) <= v.answered
  {
    assert Held(r.workers) == {};
    forall n: nat | n < c.Total() ensures n in v.answered {
      assert n in r.order;
      var j :| 0 <= j < |r.order| && r.order[j] == n;
    }
  }

  lemma Returns(c: Config, l: Log, failures: nat, r: Run)
    requires Live(c, l, failures, r) && r.phase.Draining? && (forall w | 0 <= w < |r.workers| :: r.workers[w].Idle?)
    requires r.stopped ==> r.verdict.Some?
    ensures EndedInv(c, l, Verdict(c, r, r.verdict == Some(true)))
  {
    AnsweredSize(l);
    SubsetSize(AnsweredLines(l), Below(c.Total()));
    if !r.cancelled && !r.fatal {
      AllAnswered(c, ViewOf(l), r);
      SubsetSize(Below(c.Total()), AnsweredLines(l));
    }
  }

  lemma Advances(c: Config, l: Log, failures: nat, r: Run, phase: Phase, cancel: bool)
    requires Live(c, l, failures, r) && !r.phase.Interrupting? && !phase.Interrupting?
    requires phase.i == r.phase.i || (phase.i == r.phase.i + 1 <= |r.order| && Skipped(r, r.order[r.phase.i]))
    requires Phases(r.(phase := phase, cancelled := cancel)) && Stopping(r.(phase := phase, cancelled := cancel))
    ensures Live(c, l, failures, r.(phase := phase, cancelled := cancel))
  {
    DispatchMoves(c, ViewOf(l), r, phase, cancel);
  }

  lemma KeepsLooping(c: Config, l: Log, failures: nat, r: Run, d: DispatchStep)
    requires Live(c, l, failures, r) && CanDispatch(c, r, d) && (d.Skip? || d.Look? || d.LeaveDispatch?)
    ensures Live(c, l, failures, Dispatched(c, l, r, d))
  {
    var r' := Dispatched(c, l, r, d);
    assert r' == r.(phase := r'.phase, cancelled := r'.cancelled);
    Advances(c, l, failures, r, r'.phase, r'.cancelled);
  }

  lemma KeepsHandOut(c: Config, l: Log, failures: nat, r: Run, d: DispatchStep)
    requires Live(c, l, failures, r) && CanDispatch(c, r, d) && d.HandOut?
    ensures Live(c, l, failures, Dispatched(c, l, r, d))
  {
    HandsOut(c, ViewOf(l), r, d.w);
  }

  lemma KeepsDispatcher(c: Config, l: Log, failures: nat, r: Run, d: DispatchStep)
    requires Live(c, l, failures, r) && CanDispatch(c, r, d)
    ensures Live(c, l, failures, Dispatched(c, l, r, d))
  {
    match d {
      case Begin => Begins(c, l, failures, r);
      case HandOut(_) => KeepsHandOut(c, l, failures, r, d);
      case _ => KeepsLooping(c, l, failures, r, d);
    }
  }

  lemma KeepsControl(c: Config, l: Log, failures: nat, r: Run, x: ControlStep)
    requires Live(c, l, failures, r) && CanControl(r, x)
    ensures Live(c, l, failures, Controlled(r, x))
  {
    Flagged(c, l, failures, r, Controlled(r, x));
  }

  /** Steps of a worker that touch neither the disk nor the run's flags. */
  predicate Quiet(a: WorkStep) {
    match a
    case MarkFails(_, landed) => !landed
    case Refuse(_) => true
    case BadRequest(_) => true
    case Answer(_, _) => true
    case AnswerUnreadable(_) => true
    case FailSecond(_) => true
    case _ => false
  }

  lemma KeepsQuiet(c: Config, l: Log, failures: nat, r: Run, w: nat, a: WorkStep)
    requires Live(c, l, failures, r) && CanWork(r, w, a) && Quiet(a)
    ensures Live(c, Logged(l, r, w, a), failures, Worked(r, w, a))
  {
    Moved(c, l, failures, r, w, NextWorker(r, w, a));
  }

  lemma FailedWorker(c: Config, v: View, r: Run, w: nat, a: WorkStep)
    requires RunInv(c, v, r) && CanWork(r, w, a) && a.FailFirst?
    ensures WorkerInv(c, v, Flags(r, w, a), NextWorker(r, w, a))
  {
    assert WorkerInv(c, v, r, r.workers[w]);
    assert Passed(r, r.workers[w].n) ==> Passed(Flags(r, w, a), r.workers[w].n);
  }

  lemma FailedIsWorked(l: Log, r: Run, w: nat, a: WorkStep)
    requires CanWork(r, w, a) && a.FailFirst?
    ensures Worked(r, w, a) == Flags(r, w, a).(workers := Flags(r, w, a).workers[w := NextWorker(r, w, a)])
    ensures Logged(l, r, w, a) == l
    ensures Flags(r, w, a).workers == r.workers && Flags(r, w, a).phase == r.phase
    ensures !NextWorker(r, w, a).Idle? && NextWorker(r, w, a).Line() == r.workers[w].Line() && !r.workers[w].Idle?
  {
  }

  lemma FailFlags(r: Run, w: nat, a: WorkStep)
    requires CanWork(r, w, a) && a.FailFirst? && Stopping(r)
    ensures var r' := Flags(r, w, a);
            && r' == r.(noted := r'.noted, early := r'.early) && r.early <= r'.early && (r.noted ==> r'.noted)
            && Stopping(r')
  {
  }

  lemma FailFlagged(c: Config, l: Log, failures: nat, r: Run, w: nat, a: WorkStep)
    requires Live(c, l, failures, r) && CanWork(r, w, a) && a.FailFirst?
    ensures Live(c, l, failures, Flags(r, w, a))
    ensures WorkerInv(c, ViewOf(l), Flags(r, w, a), NextWorker(r, w, a))
  {
    FailedWorker(c, ViewOf(l), r, w, a);
    FailFlags(r, w, a);
    Flagged(c, l, failures, r, Flags(r, w, a));
  }

  lemma KeepsFailFirst(c: Config, l: Log, failures: nat, r: Run, w: nat, a: WorkStep)
    requires Live(c, l, failures, r) && CanWork(r, w, a) && a.FailFirst?
    ensures Live(c, Logged(l, r, w, a), failures, Worked(r, w, a))
  {
    FailedIsWorked(l, r, w, a);
    FailFlagged(c, l, failures, r, w, a);
    Moved(c, l, failures, Flags(r, w, a), w, NextWorker(r, w, a));
  }

  lemma MarkedIsWorked(l: Log, r: Run, w: nat, a: WorkStep)
    requires CanWork(r, w, a) && (a.Mark? || (a.MarkFails? && a.landed))
    ensures Worked(r, w, a) == r.(workers := r.workers[w := NextWorker(r, w, a)])
    ensures Logged(l, r, w, a) == AddMark(l, NextWorker(r, w, a).Line())
    ensures var x := NextWorker(r, w, a);
            && r.workers[w].Handed? && x.Line() == r.workers[w].n
            && (x.Marked? || (x.Answering? && Labelled(r, x.e)))
  {
  }

  lemma KeepsMark(c: Config, l: Log, failures: nat, r: Run, w: nat, a: WorkStep)
    requires Live(c, l, failures, r) && CanWork(r, w, a) && (a.Mark? || (a.MarkFails? && a.landed))
    ensures Live(c, Logged(l, r, w, a), failures, Worked(r, w, a))
  {
    MarkedIsWorked(l, r, w, a);
    var x := NextWorker(r, w, a);
    MarkedRun(c, l, failures, r, w, x);
    MarkOnDisk(c, l, x.Line());
    MarkWritten(l, failures, r, r.workers[w := x], x.Line());
  }

  lemma MoreFailures(c: Config, l: Log, failures: nat, r: Run)
    requires Live(c, l, failures, r)
    ensures Live(c, l, failures + 1, r)
  {
  }

  lemma DeliveredIsWorked(l: Log, r: Run, w: nat, a: WorkStep)
    requires CanWork(r, w, a) && a.WriteResult? && !a.io.Lost?
    ensures Worked(r, w, a) == Delivered(r, w, a.io)
    ensures Logged(l, r, w, a) == AddResult(l, r.workers[w].e, r.workers[w].ok)
  {
    match a.io {
      case Landed =>
      case Unsynced =>
    }
  }

  lemma KeepsLanded(c: Config, l: Log, failures: nat, r: Run, w: nat, a: WorkStep)
    requires Live(c, l, failures, r) && CanWork(r, w, a) && a.WriteResult? && !a.io.Lost?
    ensures Live(c, Logged(l, r, w, a), failures, Worked(r, w, a))
  {
    DeliveredIsWorked(l, r, w, a);
    var e, ok := r.workers[w].e, r.workers[w].ok;
    AnswerLogged(c, l, failures, r, w);
    AnswerWritten(l, failures, r, w, a.io);
    CountsMove(c, ViewOf(AddResult(l, e, ok)), r.(workers := r.workers[w := Idle]), e.line, ok, a.io);
  }

  lemma KeepsUnsynced(c: Config, l: Log, failures: nat, r: Run, w: nat, a: WorkStep)
    requires Live(c, l, failures, r) && CanWork(r, w, a) && a == WriteResult(Unsynced)
    ensures Live(c, Logged(l, r, w, a), failures + 1, Worked(r, w, a))
  {
    KeepsLanded(c, l, failures, r, w, a);
    MoreFailures(c, Logged(l, r, w, a), failures, Worked(r, w, a));
  }

  lemma LeftIsWorked(l: Log, r: Run, w: nat, a: WorkStep)
    requires CanWork(r, w, a) && a.Leave?
    ensures Worked(r, w, a) == r.(workers := r.workers[w := InFlight(r.workers[w].n)])
    ensures Logged(l, r, w, a) == l.(left := l.left + [r.workers[w].n]) && r.workers[w].Marked?
  {
  }

  lemma KeepsLeave(c: Config, l: Log, failures: nat, r: Run, w: nat, a: WorkStep)
    requires Live(c, l, failures, r) && CanWork(r, w, a) && a.Leave?
    ensures Live(c, Logged(l, r, w, a), failures, Worked(r, w, a))
  {
    LeftIsWorked(l, r, w, a);
    WorkerLeaves(c, ViewOf(l), r, w);
    LeftOnDisk(c, l, r.workers[w].n);
  }

  lemma KeepsSending(c: Config, l: Log, failures: nat, r: Run, w: nat, a: WorkStep)
    requires Live(c, l, failures, r) && CanWork(r, w, a) && !a.WriteResult?
    ensures Live(c, Logged(l, r, w, a), failures, Worked(r, w, a))
  {
    if a.Mark? || (a.MarkFails? && a.landed) {
      KeepsMark(c, l, failures, r, w, a);
    } else if a.Leave? {
      KeepsLeave(c, l, failures, r, w, a);
    } else if a.FailFirst? {
      KeepsFailFirst(c, l, failures, r, w, a);
    } else {
      KeepsQuiet(c, l, failures, r, w, a);
    }
  }

  lemma LostIsWorked(l: Log, r: Run, w: nat, a: WorkStep)
    requires CanWork(r, w, a) && a == WriteResult(Lost)
    ensures Worked(r, w, a) ==
            r.(workers := r.workers[w := Idle], fatal := true, lost := r.lost + {r.workers[w].e.line})
    ensures Logged(l, r, w, a) == l && r.workers[w].Answering?
  {
  }

  lemma KeepsLost(c: Config, l: Log, failures: nat, r: Run, w: nat, a: WorkStep)
    requires Live(c, l, failures, r) && CanWork(r, w, a) && a == WriteResult(Lost)
    ensures Live(c, Logged(l, r, w, a), failures + 1, Worked(r, w, a))
  {
    LostIsWorked(l, r, w, a);
    WorkerLoses(c, ViewOf(l), r, w);
  }

  lemma KeepsWork(c: Config, l: Log, failures: nat, r: Run, w: nat, a: WorkStep)
    requires Live(c, l, failures, r) && CanWork(r, w, a)
    ensures Live(c, Logged(l, r, w, a), failures + if a.WriteResult? && !a.io.Landed? then 1 else 0, Worked(r, w, a))
  {
    if a.WriteResult? {
      match a.io {
        case Landed => KeepsLanded(c, l, failures, r, w, a);
        case Lost => KeepsLost(c, l, failures, r, w, a);
        case Unsynced => KeepsUnsynced(c, l, failures, r, w, a);
      }
    } else {
      KeepsSending(c, l, failures, r, w, a);
    }
  }

  lemma KeepsLeftover(c: Config, s: State, n: nat, rest: string, io: Write)
    requires Inv(c, s) && s.run.Some? && s.run.value.phase.Interrupting? && Leftover(c, s.run.value, n)
    ensures Inv(c, LeftoverWritten(s, n, rest, io))
  {
    LeftoverLogged(c, s.log, s.failures, s.run.value, Entry(n, Interrupted, rest));
  }

  lemma MarkKilled(c: Config, l: Log, failures: nat, r: Run, w: nat)
    requires Live(c, l, failures, r) && !r.phase.Interrupting? && w < |r.workers| && r.workers[w].Handed?
    ensures Disk(c, AddMark(l, r.workers[w].n))
  {
    var x := Marked(r.workers[w].n);
    MarkedRun(c, l, failures, r, w, x);
    MarkOnDisk(c, l, x.n);
  }

  lemma KeepsKill(c: Config, s: State, tear: Tear)
    requires Inv(c, s) && TearInPlace(s, tear) && (tear.TearLeftover? ==> Leftover(c, s.run.value, tear.n))
    ensures Disk(c, Killed(s, tear))
  {
    if Escaped(s, tear) {
      var l, f, r := s.log, s.failures, s.run.value;
      match tear {
        case TearMark(w, _) => MarkKilled(c, l, f, r, w);
        case TearResult(w, _) => AnswerLogged(c, l, f, r, w);
        case TearLeftover(n, rest, _) => LeftoverLogged(c, l, f, r, Entry(n, Interrupted, rest));
      }
    }
  }

  /** The steps of a run that goes on. */
  lemma KeepsRunning(c: Config, s: State, step: Step)
    requires Inv(c, s) && CanTake(c, s, step) && (step.Dispatcher? || step.Work? || step.Control?)
    ensures Inv(c, Do(c, s, step))
  {
    match step {
      case Dispatcher(d) => KeepsDispatcher(c, s.log, s.failures, s.run.value, d);
      case Work(w, a) => KeepsWork(c, s.log, s.failures, s.run.value, w, a);
      case Control(x) => KeepsControl(c, s.log, s.failures, s.run.value, x);
    }
  }

  /** Every step of every run keeps the invariant. */
  lemma StepKeepsInv(c: Config, s: State, step: Step)
    requires Inv(c, s) && CanTake(c, s, step)
    ensures Inv(c, Do(c, s, step))
  {
    match step {
      case Open(k, order, _) => Opens(c, s.log, s.failures, k, order);
      case AnswerLeftover(n, rest, io) => KeepsLeftover(c, s, n, rest, io);
      case StopBeforeReady(cancel) => StopsBeforeReady(c, s.log, s.failures, s.run.value, cancel);
      case Return => Returns(c, s.log, s.failures, s.run.value);
      case Kill(tear) => KeepsKill(c, s, tear);
      case _ => KeepsRunning(c, s, step);
    }
  }
}
