/**
 A smaller and a larger cache side by side, serving the same requests one after the other: what the
 smaller one holds always leads what the larger one holds, and when that makes its hits hits.
 */
module CacheInclusion {
  import opened Numbers
  import opened Recency
  import opened CacheLaws

  // ---- requests one after the other ----

  /** One request that goes through the cache: a lookup, and on a miss a fill when the answer is there. */
  datatype Access = Access(key: string, value: string, asked: int, filled: int)

  function Serve(l: seq<Item>, c: Setup, a: Access): seq<Item> {
    var (m, r) := Get(l, a.key, a.asked);
    if r.Hit? then m else Set(m, c.capacity, Item(a.key, a.value, Expiry(a.filled, 0, c.ttl)))
  }

  function Served(trace: seq<Access>, c: Setup): seq<Item> {
    if trace == [] then [] else Serve(Served(trace[..|trace| - 1], c), c, trace[|trace| - 1])
  }

  ghost predicate Answers(l: seq<Item>, a: Access) {
    Get(l, a.key, a.asked).1.Hit?
  }

  // ---- every access fronts its key ----

  /** A lapsed entry is dropped by the lookup and filled in again at the front. */
  lemma RefillFronts(l: seq<Item>, capacity: nat, i: nat, item: Item)
    requires Keyed(l) && i < |l| <= capacity && l[i].key == item.key
    ensures var r := Set(Drop(l, i), capacity, item); Fronted(r, l, item.key, i) && |r| == |l|
  {
    var d := Drop(l, i);
    assert forall j | 0 <= j < |d| :: d[j].key != item.key;
    var r := Set(d, capacity, item);
    assert r == [item] + d;
    assert forall j | 1 <= j < |r| :: r[j] == d[j - 1] && d[j - 1] == l[Behind(j, i)];
  }

  /** Whether it hits, misses or finds its entry lapsed, an access brings its key to the front. */
  lemma ServeFronts(l: seq<Item>, c: Setup, a: Access)
    requires Keyed(l) && 0 < c.capacity && |l| <= c.capacity
    ensures Fronted(Serve(l, c, a), l, a.key, Gap(l, a.key))
    ensures |Serve(l, c, a)| == Min(if Find(l, a.key) < 0 then |l| + 1 else |l|, c.capacity)
  {
    var i := Find(l, a.key);
    if 0 <= i && a.asked > l[i].expires {
      RefillFronts(l, c.capacity, i, Item(a.key, a.value, Expiry(a.filled, 0, c.ttl)));
    }
  }

  lemma AnswersWhen(l: seq<Item>, a: Access)
    ensures Answers(l, a) <==> 0 <= Find(l, a.key) && a.asked <= l[Find(l, a.key)].expires
  {
  }

  lemma FrontedKeyed(r: seq<Item>, l: seq<Item>, key: string, gap: nat)
    requires Keyed(l) && Fronted(r, l, key, gap)
    ensures Keyed(r)
  {
    forall i, j | 0 <= i < j < |r| ensures r[i].key != r[j].key {
      if 0 < i {
        assert l[Behind(i, gap)].key != l[Behind(j, gap)].key;
      }
    }
  }

  lemma {:induction false} ServedKeyed(trace: seq<Access>, c: Setup)
    requires 0 < c.capacity
    ensures Keyed(Served(trace, c)) && |Served(trace, c)| <= c.capacity
  {
    if trace != [] {
      var l, a := Served(trace[..|trace| - 1], c), trace[|trace| - 1];
      ServedKeyed(trace[..|trace| - 1], c);
      ServeFronts(l, c, a);
      FrontedKeyed(Served(trace, c), l, a.key, Gap(l, a.key));
    }
  }

  // ---- a smaller cache leads a larger one ----

  /** The keys of `s` are the first keys of `g`, as many as `capacity` allows. */
  ghost predicate Leads(s: seq<Item>, g: seq<Item>, capacity: nat) {
    && |s| == Min(|g|, capacity)
    && forall i | 0 <= i < |s| :: s[i].key == g[i].key
  }

  lemma FindLed(s: seq<Item>, g: seq<Item>, capacity: nat, key: string)
    requires Leads(s, g, capacity) && Keyed(s) && Keyed(g)
    ensures 0 <= Find(s, key) ==> Find(g, key) == Find(s, key)
    ensures 0 <= Find(g, key) < |s| ==> Find(s, key) == Find(g, key)
  {
    var i := Find(s, key);
    if 0 <= i {
      assert g[i].key == key;
      FindUnique(g, i);
    }
  }

  lemma FrontedLeads(s: seq<Item>, g: seq<Item>, s': seq<Item>, g': seq<Item>,
                     capacity: nat, key: string, i: nat, j: nat)
    requires Leads(s, g, capacity) && Fronted(s', s, key, i) && Fronted(g', g, key, j)
    requires i == j || (i == |s| == capacity <= j)
    requires |s'| == Min(|g'|, capacity)
    ensures Leads(s', g', capacity)
  {
    forall k | 0 <= k < |s'| ensures s'[k].key == g'[k].key {
      if 0 < k {
        assert g'[k].key == g[Behind(k, j)].key && s'[k].key == s[Behind(k, i)].key;
      }
    }
  }

  lemma ServeLeads(s: seq<Item>, g: seq<Item>, small: Setup, large: Setup, a: Access)
    requires Keyed(s) && Keyed(g) && 0 < small.capacity <= large.capacity && |g| <= large.capacity
    requires Leads(s, g, small.capacity)
    ensures Leads(Serve(s, small, a), Serve(g, large, a), small.capacity)
  {
    FindLed(s, g, small.capacity, a.key);
    ServeFronts(s, small, a);
    ServeFronts(g, large, a);
    FrontedLeads(s, g, Serve(s, small, a), Serve(g, large, a), small.capacity, a.key, Gap(s, a.key), Gap(g, a.key));
  }

  /**
   Inclusion: over every trace, whatever the times and the times to live, the keys of the smaller cache are
   the first keys of the larger one.
   */
  lemma {:induction false} Inclusion(trace: seq<Access>, small: Setup, large: Setup)
    requires 0 < small.capacity <= large.capacity
    ensures Leads(Served(trace, small), Served(trace, large), small.capacity)
  {
    if trace != [] {
      var init, a := trace[..|trace| - 1], trace[|trace| - 1];
      Inclusion(init, small, large);
      ServedKeyed(init, small);
      ServedKeyed(init, large);
      ServeLeads(Served(init, small), Served(init, large), small, large, a);
    }
  }

  /**
   A request hits the smaller cache and misses the larger one exactly when the smaller one holds its key and
   the larger one's entry, at the same place, has expired while the smaller one's has not.
   */
  lemma HitLostExactly(trace: seq<Access>, small: Setup, large: Setup, more: Access)
    requires 0 < small.capacity <= large.capacity
    ensures var s, g := Served(trace, small), Served(trace, large);
            var p := Find(s, more.key);
            && |s| <= |g|
            && (Answers(s, more) && !Answers(g, more) <==>
                0 <= p && g[p].expires < more.asked <= s[p].expires)
  {
    var s, g := Served(trace, small), Served(trace, large);
    Inclusion(trace, small, large);
    ServedKeyed(trace, small);
    ServedKeyed(trace, large);
    FindLed(s, g, small.capacity, more.key);
    AnswersWhen(s, more);
    AnswersWhen(g, more);
  }

  // ---- within the time to live ----

  /** No lookup comes later than any earlier fill plus the time to live. */
  ghost predicate InTime(trace: seq<Access>, ttl: int) {
    forall i, j | 0 <= i < j < |trace| :: trace[j].asked <= trace[i].filled + ttl
  }

  /** The time is some access's fill. */
  ghost predicate FilledAt(t: int, trace: seq<Access>) {
    exists j | 0 <= j < |trace| :: trace[j].filled == t
  }

  /** Every expiry is some access's fill plus the time to live. */
  ghost predicate Stamped(l: seq<Item>, trace: seq<Access>, ttl: int) {
    forall i | 0 <= i < |l| :: FilledAt(l[i].expires - ttl, trace)
  }

  lemma ServeExpires(l: seq<Item>, c: Setup, a: Access)
    ensures var r := Serve(l, c, a);
            forall i | 0 <= i < |r| :: r[i] in l || r[i].expires == a.filled + c.ttl
  {
  }

  lemma StampedOn(l: seq<Item>, r: seq<Item>, init: seq<Access>, a: Access, ttl: int)
    requires Stamped(l, init, ttl)
    requires forall i | 0 <= i < |r| :: r[i] in l || r[i].expires == a.filled + ttl
    ensures Stamped(r, init + [a], ttl)
  {
    var trace := init + [a];
    forall i | 0 <= i < |r| ensures FilledAt(r[i].expires - ttl, trace) {
      if r[i] in l {
        var p :| 0 <= p < |l| && l[p] == r[i];
        var j :| 0 <= j < |init| && init[j].filled == l[p].expires - ttl;
        assert trace[j] == init[j];
      } else {
        assert trace[|init|] == a;
      }
    }
  }

  lemma {:induction false} ServedStamped(trace: seq<Access>, c: Setup)
    ensures Stamped(Served(trace, c), trace, c.ttl)
  {
    if trace != [] {
      var init, a := trace[..|trace| - 1], trace[|trace| - 1];
      ServedStamped(init, c);
      ServeExpires(Served(init, c), c, a);
      StampedOn(Served(init, c), Served(trace, c), init, a, c.ttl);
      assert init + [a] == trace;
    }
  }

  /** Within the time to live every hit of the smaller cache is a hit of the larger one. */
  lemma HitsWithinLife(trace: seq<Access>, small: Setup, large: Setup, more: Access)
    requires 0 < small.capacity <= large.capacity && InTime(trace + [more], large.ttl)
    ensures Answers(Served(trace, small), more) ==> Answers(Served(trace, large), more)
  {
    HitLostExactly(trace, small, large, more);
    ServedStamped(trace, large);
    var g, p := Served(trace, large), Find(Served(trace, small), more.key);
    if 0 <= p {
      assert FilledAt(g[p].expires - large.ttl, trace);
      var j :| 0 <= j < |trace| && trace[j].filled == g[p].expires - large.ttl;
      var whole := trace + [more];
      assert whole[|trace|] == more && whole[j] == trace[j];
    }
  }

  /**
   Past it a hit can be lost: the smaller cache evicted the key and fetched it again, the larger one kept the
   first answer until it lapsed.
   */
  lemma HitLostPastExpiry()
    ensures var trace := [Access("A", "1", 0, 0), Access("B", "2", 1, 1), Access("A", "3", 2, 2)];
      var more := Access("A", "4", 11, 11);
      Answers(Served(trace, Setup(1, 10)), more) && !Answers(Served(trace, Setup(2, 10)), more)
  {
    var trace := [Access("A", "1", 0, 0), Access("B", "2", 1, 1), Access("A", "3", 2, 2)];
    var one, two := trace[..1], trace[..2];
    assert one[..0] == [] && two[..1] == one && trace[..2] == two;
    forall capacity | capacity == 1 || capacity == 2
      ensures Served(one, Setup(capacity, 10)) == [Item("A", "1", 10)]
    {
    }
    assert Served(two, Setup(1, 10)) == [Item("B", "2", 11)];
    assert Served(two, Setup(2, 10)) == [Item("B", "2", 11), Item("A", "1", 10)];
    assert Served(trace, Setup(1, 10)) == [Item("A", "3", 12)];
    assert Served(trace, Setup(2, 10)) == [Item("A", "1", 10), Item("B", "2", 11)];
  }
}
