/**
 What the cache answers (internal/cache/memory.go), read off the operations alone: a lookup that hits
 returns what was last stored under its key, and a key that was stored hits unless something took it out,
 its time ran out, or too many other keys were touched since.
 */
module CacheAnswers {
  import opened Numbers
  import opened Recency
  import opened CacheLaws

  /** Until when what the operation stores may be returned. */
  function Until(c: Setup, op: Op): int
    requires op.Store?
  {
    op.now + if op.ttl > 0 then op.ttl else c.ttl
  }

  /** The last store of the key, or -1. */
  function LastStore(ops: seq<Op>, key: string): (n: int)
    ensures -1 <= n < |ops|
    ensures 0 <= n ==> ops[n].Store? && ops[n].key == key
    ensures forall j | n < j < |ops| :: !(ops[j].Store? && ops[j].key == key)
  {
    if ops == [] then -1
    else if ops[|ops| - 1].Store? && ops[|ops| - 1].key == key then |ops| - 1
    else LastStore(ops[..|ops| - 1], key)
  }

  /** The key was stored, and nothing has taken it out since. */
  ghost predicate Standing(ops: seq<Op>, c: Setup, key: string) {
    var n := LastStore(ops, key);
    0 <= n && forall j | n < j < |ops| :: !TakesOut(ops[j], key, Until(c, ops[n]))
  }

  ghost predicate TouchesAny(l: seq<Item>, op: Op) {
    op.Store? || (op.Look? && Touches(l, op, op.key))
  }

  /** The other keys touched since the key itself was. */
  ghost function TouchedSince(ops: seq<Op>, c: Setup, key: string): set<string> {
    if ops == [] then {}
    else
      var l, op := Run(ops[..|ops| - 1], c), ops[|ops| - 1];
      var before := TouchedSince(ops[..|ops| - 1], c, key);
      if !TouchesAny(l, op) then before else if op.key == key then {} else before + {op.key}
  }

  lemma StandingMore(ops: seq<Op>, op: Op, c: Setup, key: string)
    ensures LastStore(ops + [op], key) == if op.Store? && op.key == key then |ops| else LastStore(ops, key)
    ensures var n := LastStore(ops, key);
            Standing(ops + [op], c, key) <==>
            || (op.Store? && op.key == key)
            || (Standing(ops, c, key) && !TakesOut(op, key, Until(c, ops[n])))
  {
    var all := ops + [op];
    assert all[..|ops|] == ops && all[|ops|] == op;
    assert forall j | 0 <= j < |ops| :: all[j] == ops[j];
  }

  // ---- a hit returns the last store ----

  /** The entry is what the last store of its key put there, and nothing has taken it out. */
  ghost predicate Right(ops: seq<Op>, c: Setup, x: Item) {
    && Standing(ops, c, x.key)
    && x == Item(x.key, ops[LastStore(ops, x.key)].value, Until(c, ops[LastStore(ops, x.key)]))
  }

  lemma StillRight(ops: seq<Op>, op: Op, c: Setup, x: Item)
    requires Right(ops, c, x) && !TakesOut(op, x.key, x.expires) && !(op.Store? && op.key == x.key)
    ensures Right(ops + [op], c, x)
  {
    StandingMore(ops, op, c, x.key);
  }

  lemma FrontRight(ops: seq<Op>, op: Op, c: Setup)
    requires 0 < c.capacity && TouchesAny(Run(ops, c), op)
    requires forall x <- Run(ops, c) :: Right(ops, c, x)
    ensures var r := Step(Run(ops, c), c, op); r != [] && Right(ops + [op], c, r[0])
  {
    var l := Run(ops, c);
    StandingMore(ops, op, c, op.key);
    if op.Look? {
      StillRight(ops, op, c, l[Find(l, op.key)]);
    }
  }

  lemma TouchRight(ops: seq<Op>, op: Op, c: Setup)
    requires 0 < c.capacity && Keyed(Run(ops, c)) && TouchesAny(Run(ops, c), op)
    requires forall x <- Run(ops, c) :: Right(ops, c, x)
    ensures forall x <- Step(Run(ops, c), c, op) :: Right(ops + [op], c, x)
  {
    var l, r := Run(ops, c), Step(Run(ops, c), c, op);
    FrontRight(ops, op, c);
    var gap := Gap(l, op.key);
    StepFronts(l, c, op, op.key);
    forall j | 1 <= j < |r| ensures Right(ops + [op], c, r[j]) {
      assert r[j] == l[Behind(j, gap)];
      StillRight(ops, op, c, r[j]);
    }
  }

  /** What is left is as it was, and was not to be taken out. */
  lemma {:induction false} LeftBehind(l: seq<Item>, gone: set<string>)
    ensures forall x <- Without(l, gone) :: x in l && x.key !in gone
  {
    if l != [] {
      LeftBehind(l[..|l| - 1], gone);
    }
  }

  lemma RemovalRight(ops: seq<Op>, op: Op, c: Setup)
    requires Keyed(Run(ops, c)) && !TouchesAny(Run(ops, c), op)
    requires forall x <- Run(ops, c) :: Right(ops, c, x)
    ensures forall x <- Step(Run(ops, c), c, op) :: Right(ops + [op], c, x)
  {
    var l := Run(ops, c);
    StepRemoves(l, c, op);
    LeftBehind(l, Gone(l, op));
    forall x <- Step(l, c, op) ensures Right(ops + [op], c, x) {
      var i :| 0 <= i < |l| && l[i] == x;
      GoneExactly(l, op, i);
      StillRight(ops, op, c, x);
    }
  }

  lemma {:induction false} RunRight(ops: seq<Op>, c: Setup)
    requires 0 < c.capacity
    ensures forall x <- Run(ops, c) :: Right(ops, c, x)
  {
    if ops != [] {
      var init, op := ops[..|ops| - 1], ops[|ops| - 1];
      assert ops == init + [op];
      RunRight(init, c);
      RunByTouch(init, c);
      if TouchesAny(Run(init, c), op) {
        TouchRight(init, op, c);
      } else {
        RemovalRight(init, op, c);
      }
    }
  }

  /** Whatever the run, a lookup that hits returns the value of the last store of its key, within the time
      that store gave it, and nothing has taken the key out since. */
  lemma HitIsLastStore(ops: seq<Op>, c: Setup, key: string, now: int)
    requires 0 < c.capacity && Get(Run(ops, c), key, now).1.Hit?
    ensures var n := LastStore(ops, key);
            && Standing(ops, c, key) && now <= Until(c, ops[n])
            && Get(Run(ops, c), key, now).1 == Hit(ops[n].value)
  {
    var l := Run(ops, c);
    RunRight(ops, c);
    assert l[Find(l, key)] in l;
  }

  // ---- what was stored is found ----

  /** The key is there, and only keys of `since` are ahead of it. */
  ghost predicate Ranked(l: seq<Item>, key: string, since: set<string>) {
    exists i | 0 <= i < |l| :: l[i].key == key && forall j | 0 <= j < i :: l[j].key in since
  }

  lemma {:induction false} WithoutRanked(l: seq<Item>, gone: set<string>, key: string, since: set<string>)
    requires Ranked(l, key, since) && key !in gone
    ensures Ranked(Without(l, gone), key, since)
  {
    var i :| 0 <= i < |l| && l[i].key == key && forall j | 0 <= j < i :: l[j].key in since;
    var init, last := l[..|l| - 1], l[|l| - 1];
    var w := Without(init, gone);
    if i < |init| {
      assert init[i].key == key && forall j | 0 <= j < i :: init[j].key in since;
      WithoutRanked(init, gone, key, since);
      var k :| 0 <= k < |w| && w[k].key == key && forall j | 0 <= j < k :: w[j].key in since;
      assert Without(l, gone)[k].key == key && forall j | 0 <= j < k :: Without(l, gone)[j].key in since;
    } else {
      WithoutFrom(init, gone);
      forall j | 0 <= j < |w| ensures w[j].key in since {
        assert w[j] in init;
        var p :| 0 <= p < |init| && init[p] == w[j];
        assert l[p].key in since;
      }
      assert Without(l, gone)[|w|].key == key;
    }
  }

  function Keys(l: seq<Item>): (ks: set<string>) {
    set i | 0 <= i < |l| :: l[i].key
  }

  lemma {:induction false} KeysSize(l: seq<Item>)
    requires Keyed(l)
    ensures |Keys(l)| == |l|
  {
    if l != [] {
      var init, last := l[..|l| - 1], l[|l| - 1];
      KeysSize(init);
      assert Keys(l) == Keys(init) + {last.key};
      assert last.key !in Keys(init);
    }
  }

  lemma SubsetSize(a: set<string>, b: set<string>)
    requires a <= b
    ensures |a| <= |b|
  {
    assert b == a + (b - a);
  }

  /** The key at the end of a full cache, with a new one before it, has as many others touched since. */
  lemma FallsOff(l: seq<Item>, c: Setup, other: string, i: nat, since: set<string>)
    requires Keyed(l) && i == |l| - 1 && |l| == c.capacity && Find(l, other) < 0
    requires forall j | 0 <= j < i :: l[j].key in since
    ensures |since + {other}| >= c.capacity
  {
    KeysSize(l[..i]);
    assert other !in Keys(l[..i]);
    SubsetSize(Keys(l[..i]) + {other}, since + {other});
  }

  /** A touch of another key leaves the key where it was, or one further down, or it falls off a full cache. */
  lemma TouchRanked(l: seq<Item>, c: Setup, op: Op, key: string, since: set<string>)
    requires 0 < c.capacity && Keyed(l) && |l| <= c.capacity
    requires TouchesAny(l, op) && op.key != key && Ranked(l, key, since)
    ensures Ranked(Step(l, c, op), key, since + {op.key}) || |since + {op.key}| >= c.capacity
  {
    var r := Step(l, c, op);
    var i :| 0 <= i < |l| && l[i].key == key && forall j | 0 <= j < i :: l[j].key in since;
    var gap := Gap(l, op.key);
    StepFronts(l, c, op, op.key);
    var k := if gap < i then i else i + 1;
    if k < |r| {
      assert r[k].key == key;
      forall j | 0 <= j < k ensures r[j].key in since + {op.key} {
        assert j > 0 ==> r[j] == l[Behind(j, gap)];
      }
    } else {
      FallsOff(l, c, op.key, i, since);
    }
  }

  lemma SinceMore(ops: seq<Op>, op: Op, c: Setup, key: string)
    ensures TouchedSince(ops + [op], c, key) ==
            var before := TouchedSince(ops, c, key);
            if !TouchesAny(Run(ops, c), op) then before else if op.key == key then {} else before + {op.key}
  {
    assert (ops + [op])[..|ops|] == ops;
  }

  /** An entry that is there and was not to be taken out is not among those that go. */
  lemma StillThere(ops: seq<Op>, op: Op, c: Setup, key: string)
    requires 0 < c.capacity && Standing(ops + [op], c, key) && !(op.Store? && op.key == key)
    ensures key !in Gone(Run(ops, c), op)
  {
    var l := Run(ops, c);
    RunRight(ops, c);
    StandingMore(ops, op, c, key);
    forall i | 0 <= i < |l| && l[i].key == key ensures !TakesOut(op, key, l[i].expires) {
      assert Right(ops, c, l[i]);
    }
  }

  lemma RankedStep(ops: seq<Op>, op: Op, c: Setup, key: string)
    requires 0 < c.capacity && Standing(ops + [op], c, key)
    requires Standing(ops, c, key) ==>
               Ranked(Run(ops, c), key, TouchedSince(ops, c, key)) || |TouchedSince(ops, c, key)| >= c.capacity
    ensures var since := TouchedSince(ops + [op], c, key);
            Ranked(Step(Run(ops, c), c, op), key, since) || |since| >= c.capacity
  {
    var l, since := Run(ops, c), TouchedSince(ops, c, key);
    RunByTouch(ops, c);
    StandingMore(ops, op, c, key);
    SinceMore(ops, op, c, key);
    if !TouchesAny(l, op) {
      StepRemoves(l, c, op);
      if Ranked(l, key, since) {
        StillThere(ops, op, c, key);
        WithoutRanked(l, Gone(l, op), key, since);
      }
    } else if op.key == key {
      StepFronts(l, c, op, key);
      assert Step(l, c, op)[0].key == key;
    } else if Ranked(l, key, since) {
      TouchRanked(l, c, op, key, since);
    } else {
      SubsetSize(since, since + {op.key});
    }
  }

  lemma {:induction false} RunRanked(ops: seq<Op>, c: Setup, key: string)
    requires 0 < c.capacity && Standing(ops, c, key)
    ensures Ranked(Run(ops, c), key, TouchedSince(ops, c, key)) || |TouchedSince(ops, c, key)| >= c.capacity
  {
    if ops != [] {
      var init, op := ops[..|ops| - 1], ops[|ops| - 1];
      assert ops == init + [op];
      if Standing(init, c, key) {
        RunRanked(init, c, key);
      }
      RankedStep(init, op, c, key);
    }
  }

  /** Conversely, a key that was stored and not taken out hits within its time, as long as fewer other keys
      were touched since than the cache has room for. */
  lemma StoredIsHit(ops: seq<Op>, c: Setup, key: string, now: int)
    requires 0 < c.capacity && Standing(ops, c, key) && now <= Until(c, ops[LastStore(ops, key)])
    requires |TouchedSince(ops, c, key)| < c.capacity
    ensures Get(Run(ops, c), key, now).1 == Hit(ops[LastStore(ops, key)].value)
  {
    var l := Run(ops, c);
    RunRanked(ops, c, key);
    RunRight(ops, c);
    assert l[Find(l, key)] in l;
  }

  // ---- exactly, while nothing is taken out ----

  /** Since the key was last touched no operation has taken anything out. */
  ghost predicate Undisturbed(ops: seq<Op>, c: Setup, key: string) {
    ops != [] ==>
      var l, op := Run(ops[..|ops| - 1], c), ops[|ops| - 1];
      if TouchesAny(l, op) then op.key == key || Undisturbed(ops[..|ops| - 1], c, key)
      else Undisturbed(ops[..|ops| - 1], c, key) && Gone(l, op) == {}
  }

  /** If the key is there, the keys of `since` are ahead of it. */
  ghost predicate Counted(l: seq<Item>, key: string, since: set<string>) {
    forall i | 0 <= i < |l| && l[i].key == key :: since <= Keys(l[..i])
  }

  lemma TouchCounted(l: seq<Item>, c: Setup, op: Op, key: string, since: set<string>)
    requires 0 < c.capacity && Keyed(l) && TouchesAny(l, op) && op.key != key && Counted(l, key, since)
    ensures Counted(Step(l, c, op), key, since + {op.key})
  {
    var r := Step(l, c, op);
    var gap := Gap(l, op.key);
    StepFronts(l, c, op, op.key);
    forall k, y | 0 <= k < |r| && r[k].key == key && y in since + {op.key} ensures y in Keys(r[..k]) {
      assert r[k] == l[Behind(k, gap)];
      if y == op.key {
        assert r[..k][0].key == y;
      } else {
        var p :| 0 <= p < Behind(k, gap) && l[p].key == y;
        var q := if p < gap then p + 1 else p;
        assert r[..k][q].key == y;
      }
    }
  }

  lemma {:induction false} RunCounted(ops: seq<Op>, c: Setup, key: string)
    requires 0 < c.capacity && Undisturbed(ops, c, key)
    ensures Counted(Run(ops, c), key, TouchedSince(ops, c, key))
  {
    if ops != [] {
      var init, op := ops[..|ops| - 1], ops[|ops| - 1];
      var l := Run(init, c);
      RunByTouch(init, c);
      if !TouchesAny(l, op) {
        RunCounted(init, c, key);
        StepRemoves(l, c, op);
        WithoutNone(l);
      } else if op.key != key {
        RunCounted(init, c, key);
        TouchCounted(l, c, op, key, TouchedSince(init, c, key));
      }
    }
  }

  /** A key that is there has fewer others touched since than the cache has room for. */
  lemma FewTouched(ops: seq<Op>, c: Setup, key: string, i: nat)
    requires 0 < c.capacity && Undisturbed(ops, c, key) && i < |Run(ops, c)| && Run(ops, c)[i].key == key
    ensures |TouchedSince(ops, c, key)| < c.capacity
  {
    var l := Run(ops, c);
    RunCounted(ops, c, key);
    RunByTouch(ops, c);
    KeysSize(l[..i]);
    SubsetSize(TouchedSince(ops, c, key), Keys(l[..i]));
  }

  /** While nothing else is taken out, that is exactly when it hits. */
  lemma HitExactly(ops: seq<Op>, c: Setup, key: string, now: int)
    requires 0 < c.capacity && Undisturbed(ops, c, key)
    ensures Get(Run(ops, c), key, now).1.Hit? <==>
            && Standing(ops, c, key) && now <= Until(c, ops[LastStore(ops, key)])
            && |TouchedSince(ops, c, key)| < c.capacity
  {
    if Get(Run(ops, c), key, now).1.Hit? {
      HitIsLastStore(ops, c, key, now);
      FewTouched(ops, c, key, Find(Run(ops, c), key));
    } else if Standing(ops, c, key) && now <= Until(c, ops[LastStore(ops, key)]) {
      if |TouchedSince(ops, c, key)| < c.capacity {
        StoredIsHit(ops, c, key, now);
      }
    }
  }
}
