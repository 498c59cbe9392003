/**
 What the recency sequence promises over whole runs: it never outgrows its capacity, and it lists keys by
 their last touch, so what it evicts is what was touched longest ago.
 */
module CacheLaws {
  import opened Numbers
  import opened Recency

  datatype Op =
    | Look(key: string, now: int)
    | Store(key: string, value: string, ttl: int, now: int)
    | Forget(key: string)
    | ForgetNamespace(ns: string)
    | ForgetAll
    | Tidy(now: int)

  datatype Setup = Setup(capacity: nat, ttl: int)

  function Step(l: seq<Item>, c: Setup, op: Op): seq<Item> {
    match op
    case Look(key, now) => Get(l, key, now).0
    case Store(key, value, ttl, now) => Set(l, c.capacity, Item(key, value, Expiry(now, ttl, c.ttl)))
    case Forget(key) => Without(l, {key})
    case ForgetNamespace(ns) => Outside(l, ns + "/")
    case ForgetAll => []
    case Tidy(now) => Live(l, now)
  }

  /** The cache after a run of operations on an empty one. */
  function Run(ops: seq<Op>, c: Setup): seq<Item> {
    if ops == [] then [] else Step(Run(ops[..|ops| - 1], c), c, ops[|ops| - 1])
  }

  /** Storing a key touches it, and so does a lookup that hits. */
  ghost predicate Touches(l: seq<Item>, op: Op, key: string) {
    match op
    case Look(k, now) => k == key && Get(l, k, now).1.Hit?
    case Store(k, _, _, _) => k == key
    case _ => false
  }

  /** The number of operations up to the last one that touched the key. */
  ghost function LastTouch(ops: seq<Op>, c: Setup, key: string): (n: nat)
    ensures n <= |ops|
  {
    if ops == [] then 0
    else if Touches(Run(ops[..|ops| - 1], c), ops[|ops| - 1], key) then |ops|
    else LastTouch(ops[..|ops| - 1], c, key)
  }

  /** Keys in the order of their last touch, the latest first. */
  ghost predicate ByTouch(l: seq<Item>, ops: seq<Op>, c: Setup) {
    forall i, j | 0 <= i < j < |l| :: LastTouch(ops, c, l[i].key) > LastTouch(ops, c, l[j].key)
  }

  lemma ByTouchKeyed(l: seq<Item>, ops: seq<Op>, c: Setup)
    requires ByTouch(l, ops, c)
    ensures Keyed(l)
  {
    assert forall i, j | 0 <= i < j < |l| :: LastTouch(ops, c, l[i].key) > LastTouch(ops, c, l[j].key);
  }

  lemma {:induction false} WithoutByTouch(l: seq<Item>, gone: set<string>, ops: seq<Op>, c: Setup)
    requires ByTouch(l, ops, c)
    ensures ByTouch(Without(l, gone), ops, c)
  {
    if l != [] {
      var init, last := l[..|l| - 1], l[|l| - 1];
      WithoutByTouch(init, gone, ops, c);
      WithoutFrom(init, gone);
      var w := Without(init, gone);
      forall i | 0 <= i < |w| ensures LastTouch(ops, c, w[i].key) > LastTouch(ops, c, last.key) {
        assert w[i] in init;
        var p :| 0 <= p < |init| && init[p] == w[i];
        assert l[p] == w[i];
      }
    }
  }

  /** The operation takes an entry of this key out, if it expires then. */
  predicate TakesOut(op: Op, key: string, expires: int) {
    match op
    case Look(k, now) => k == key && now > expires
    case Store(_, _, _, _) => false
    case Forget(k) => k == key
    case ForgetNamespace(ns) => ns + "/" <= key
    case ForgetAll => true
    case Tidy(now) => now > expires
  }

  /** The keys the operation takes out. */
  function Gone(l: seq<Item>, op: Op): set<string> {
    set i | 0 <= i < |l| && TakesOut(op, l[i].key, l[i].expires) :: l[i].key
  }

  lemma GoneExactly(l: seq<Item>, op: Op, i: nat)
    requires Keyed(l) && i < |l|
    ensures l[i].key in Gone(l, op) <==> TakesOut(op, l[i].key, l[i].expires)
  {
    assert forall a, b | 0 <= a < |l| && 0 <= b < |l| && l[a].key == l[b].key :: a == b;
  }

  lemma {:induction false} WithoutAll(l: seq<Item>, gone: set<string>)
    requires forall i | 0 <= i < |l| :: l[i].key in gone
    ensures Without(l, gone) == []
  {
    if l != [] {
      WithoutAll(l[..|l| - 1], gone);
    }
  }

  lemma {:induction false} WithoutAgrees(l: seq<Item>, gone: set<string>, gone': set<string>)
    requires forall i | 0 <= i < |l| :: l[i].key in gone <==> l[i].key in gone'
    ensures Without(l, gone) == Without(l, gone')
  {
    if l != [] {
      WithoutAgrees(l[..|l| - 1], gone, gone');
    }
  }

  /** An operation that touches nothing takes out what it says, and leaves the rest as it is. */
  lemma StepRemoves(l: seq<Item>, c: Setup, op: Op)
    requires Keyed(l) && !op.Store? && (op.Look? ==> !Touches(l, op, op.key))
    ensures Step(l, c, op) == Without(l, Gone(l, op))
  {
    var gone := Gone(l, op);
    forall i | 0 <= i < |l| ensures l[i].key in gone <==> TakesOut(op, l[i].key, l[i].expires) {
      GoneExactly(l, op, i);
    }
    match op
    case Look(key, now) =>
      var i := Find(l, key);
      if i < 0 {
        assert gone == {};
        WithoutNone(l);
      } else {
        assert gone == {key};
        WithoutOne(l, i);
      }
    case Forget(key) => WithoutAgrees(l, gone, {key});
    case ForgetNamespace(ns) => WithoutPrefix(l, gone, ns + "/");
    case ForgetAll => WithoutAll(l, gone);
    case Tidy(now) => WithoutExpired(l, gone, now);
  }

  lemma Extended(ops: seq<Op>, op: Op, c: Setup, key: string)
    ensures Run(ops + [op], c) == Step(Run(ops, c), c, op)
    ensures LastTouch(ops + [op], c, key) ==
            if Touches(Run(ops, c), op, key) then |ops| + 1 else LastTouch(ops, c, key)
  {
    assert (ops + [op])[..|ops|] == ops;
  }

  /** Where an element behind the front comes from. */
  function Behind(j: nat, gap: nat): nat
    requires 0 < j
  {
    if j <= gap then j - 1 else j
  }

  /** `r` is `l` with `key` in front, what was at `gap` gone and perhaps the back as well. */
  ghost predicate Fronted(r: seq<Item>, l: seq<Item>, key: string, gap: nat) {
    && r != [] && r[0].key == key
    && |r| <= (if gap < |l| then |l| else |l| + 1)
    && forall j | 1 <= j < |r| :: r[j].key != key && r[j] == l[Behind(j, gap)]
  }

  /** The place `key` leaves when it comes to the front: its own, or behind the end when it is new. */
  function Gap(l: seq<Item>, key: string): nat {
    if Find(l, key) < 0 then |l| else Find(l, key)
  }

  lemma StepFronts(l: seq<Item>, c: Setup, op: Op, key: string)
    requires Keyed(l) && Touches(l, op, key) && 0 < c.capacity
    ensures Fronted(Step(l, c, op), l, key, Gap(l, key))
    ensures |Step(l, c, op)| == if 0 <= Find(l, key) then |l| else Min(1 + |l|, c.capacity)
  {
    var i := Find(l, key);
    if op.Store? && 0 <= i {
      var item := Item(op.key, op.value, Expiry(op.now, op.ttl, c.ttl));
      var r := Front(l[i := item], i);
      assert forall j | 1 <= j < |r| :: r[j] == l[Behind(j, i)];
    }
  }

  lemma TouchKept(ops: seq<Op>, op: Op, c: Setup, key: string, other: string)
    requires Touches(Run(ops, c), op, key) && other != key
    ensures LastTouch(ops + [op], c, other) == LastTouch(ops, c, other)
  {
    Extended(ops, op, c, other);
  }

  lemma FrontedByTouch(r: seq<Item>, l: seq<Item>, key: string, gap: nat, ops: seq<Op>, op: Op, c: Setup)
    requires l == Run(ops, c) && ByTouch(l, ops, c) && Touches(l, op, key)
    requires Fronted(r, l, key, gap)
    ensures ByTouch(r, ops + [op], c)
  {
    forall i, j | 0 <= i < j < |r|
      ensures LastTouch(ops + [op], c, r[i].key) > LastTouch(ops + [op], c, r[j].key)
    {
      var q := Behind(j, gap);
      assert r[j].key == l[q].key != key;
      TouchKept(ops, op, c, key, l[q].key);
      if i == 0 {
        Extended(ops, op, c, key);
      } else {
        var p := Behind(i, gap);
        assert r[i].key == l[p].key != key;
        TouchKept(ops, op, c, key, l[p].key);
        assert LastTouch(ops, c, l[p].key) > LastTouch(ops, c, l[q].key);
      }
    }
  }

  lemma UntouchedByTouch(r: seq<Item>, ops: seq<Op>, op: Op, c: Setup)
    requires ByTouch(r, ops, c) && forall key :: !Touches(Run(ops, c), op, key)
    ensures ByTouch(r, ops + [op], c)
  {
    forall i, j | 0 <= i < j < |r|
      ensures LastTouch(ops + [op], c, r[i].key) > LastTouch(ops + [op], c, r[j].key)
    {
      Extended(ops, op, c, r[i].key);
      Extended(ops, op, c, r[j].key);
    }
  }

  /** The sequence lists keys by their last touch, within capacity, whatever the run. */
  lemma {:induction false} RunByTouch(ops: seq<Op>, c: Setup)
    requires 0 < c.capacity
    ensures ByTouch(Run(ops, c), ops, c)
    ensures Keyed(Run(ops, c)) && |Run(ops, c)| <= c.capacity
  {
    if ops != [] {
      var init, op := ops[..|ops| - 1], ops[|ops| - 1];
      var l := Run(init, c);
      RunByTouch(init, c);
      assert ops == init + [op];
      if key :| Touches(l, op, key) {
        StepFronts(l, c, op, key);
        FrontedByTouch(Run(ops, c), l, key, Gap(l, key), init, op, c);
      } else {
        assert op.Store? || op.Look? ==> !Touches(l, op, op.key);
        StepRemoves(l, c, op);
        WithoutByTouch(l, Gone(l, op), init, c);
        WithoutFrom(l, Gone(l, op));
        UntouchedByTouch(Run(ops, c), init, op, c);
      }
      ByTouchKeyed(Run(ops, c), ops, c);
    }
  }

  lemma KeptByRenewal(l: seq<Item>, i: nat, item: Item)
    requires i < |l| && l[i].key == item.key
    ensures forall x <- l :: x.key != item.key ==> x in Front(l[i := item], i)
  {
    var r := Front(l[i := item], i);
    forall x <- l | x.key != item.key ensures x in r {
      var p :| 0 <= p < |l| && l[p] == x;
      assert r[if p < i then p + 1 else p] == x;
    }
  }

  lemma KeptByInsertion(l: seq<Item>, capacity: nat, item: Item)
    requires 0 < capacity && |l| <= capacity
    ensures var r := ([item] + l)[..Min(1 + |l|, capacity)];
      forall x <- l :: x !in r ==> |l| == capacity && r[1..] == l[..|l| - 1] && x == l[|l| - 1]
  {
    var r := ([item] + l)[..Min(1 + |l|, capacity)];
    assert forall p | 0 <= p < |r| - 1 :: r[p + 1] == l[p];
  }

  /** One store evicts at most one entry: the one touched longest ago, and never the new one. */
  lemma VictimIsOldest(ops: seq<Op>, c: Setup, op: Op)
    requires 0 < c.capacity && op.Store?
    ensures var l, r := Run(ops, c), Run(ops + [op], c);
      && r != [] && r[0].key == op.key && r[0].value == op.value
      && (forall x <- l :: x.key != op.key && x !in r ==>
          && |l| == c.capacity && r[1..] == l[..|l| - 1] && x == l[|l| - 1]
          && forall y <- l | y != x :: LastTouch(ops, c, y.key) > LastTouch(ops, c, x.key))
  {
    var l, r := Run(ops, c), Run(ops + [op], c);
    var i := Find(l, op.key);
    RunByTouch(ops, c);
    Extended(ops, op, c, op.key);
    if 0 <= i {
      KeptByRenewal(l, i, r[0]);
    } else {
      KeptByInsertion(l, c.capacity, r[0]);
      forall x, y | x in l && y in l && x != y && x == l[|l| - 1]
        ensures LastTouch(ops, c, y.key) > LastTouch(ops, c, x.key)
      {
        var p :| 0 <= p < |l| && l[p] == y;
      }
    }
  }
}
