/**
 A smaller and a larger cache serving requests that overlap: a request that missed fills when its answer is
 there, and others may ask and fill in between. Which overlaps keep inclusion, and one that does not.
 */
module CacheOverlap {
  import opened Numbers
  import opened Recency
  import opened CacheLaws
  import opened CacheInclusion

  /** A request asks the cache; if it misses, it fills when its answer is there, and others may come between. */
  datatype Event = Ask(who: nat, key: string, now: int) | Fill(who: nat, value: string, now: int)

  /** The cache, and the requests that missed and are being answered. */
  datatype Desk = Desk(l: seq<Item>, waiting: map<nat, string>)

  function Handle(d: Desk, c: Setup, e: Event): Desk {
    match e
    case Ask(who, key, now) =>
      var (m, r) := Get(d.l, key, now);
      Desk(m, if r.Hit? then d.waiting else d.waiting[who := key])
    case Fill(who, value, now) =>
      if who !in d.waiting then d
      else Desk(Set(d.l, c.capacity, Item(d.waiting[who], value, Expiry(now, 0, c.ttl))), d.waiting - {who})
  }

  function HandleAll(es: seq<Event>, c: Setup): Desk {
    if es == [] then Desk([], map[]) else Handle(HandleAll(es[..|es| - 1], c), c, es[|es| - 1])
  }

  /** The accesses one after the other: every fill directly behind its own lookup. */
  function InTurn(trace: seq<Access>): seq<Event> {
    if trace == [] then []
    else
      var a, n := trace[|trace| - 1], |trace| - 1;
      InTurn(trace[..n]) + [Ask(n, a.key, a.asked), Fill(n, a.value, a.filled)]
  }

  lemma HandleMore(es: seq<Event>, e: Event, c: Setup)
    ensures HandleAll(es + [e], c) == Handle(HandleAll(es, c), c, e)
  {
    assert (es + [e])[..|es|] == es;
  }

  /** Requests that do not overlap are served as `Served` says, so inclusion holds of them. */
  lemma {:induction false} InTurnIsServed(trace: seq<Access>, c: Setup)
    ensures HandleAll(InTurn(trace), c) == Desk(Served(trace, c), map[])
  {
    if trace != [] {
      var n := |trace| - 1;
      var a, before := trace[n], InTurn(trace[..n]);
      InTurnIsServed(trace[..n], c);
      HandleMore(before, Ask(n, a.key, a.asked), c);
      HandleMore(before + [Ask(n, a.key, a.asked)], Fill(n, a.value, a.filled), c);
      assert InTurn(trace) == before + [Ask(n, a.key, a.asked)] + [Fill(n, a.value, a.filled)];
      var alone: map<nat, string> := map[n := a.key];
      assert map[][n := a.key] == alone && alone - {n} == map[];
    }
  }

  // ---- nothing expires ----

  /** No request asks later than any earlier fill plus the time to live. */
  ghost predicate AskedInTime(es: seq<Event>, ttl: int) {
    forall i, j | 0 <= i < j < |es| && es[i].Fill? && es[j].Ask? :: es[j].now <= es[i].now + ttl
  }

  /** Some fill came at `t`. */
  ghost predicate FillAt(t: int, es: seq<Event>) {
    exists j | 0 <= j < |es| :: es[j].Fill? && es[j].now == t
  }

  /** Every expiry is some fill plus the time to live. */
  ghost predicate Dated(l: seq<Item>, es: seq<Event>, ttl: int) {
    forall i | 0 <= i < |l| :: FillAt(l[i].expires - ttl, es)
  }

  lemma HandleDates(d: Desk, c: Setup, e: Event)
    ensures var l := Handle(d, c, e).l;
            forall i | 0 <= i < |l| :: l[i] in d.l || (e.Fill? && l[i].expires == e.now + c.ttl)
  {
  }

  lemma DatedOn(l: seq<Item>, r: seq<Item>, init: seq<Event>, e: Event, ttl: int)
    requires Dated(l, init, ttl)
    requires forall i | 0 <= i < |r| :: r[i] in l || (e.Fill? && r[i].expires == e.now + ttl)
    ensures Dated(r, init + [e], ttl)
  {
    var es := init + [e];
    forall i | 0 <= i < |r| ensures FillAt(r[i].expires - ttl, es) {
      if r[i] in l {
        var p :| 0 <= p < |l| && l[p] == r[i];
        var j :| 0 <= j < |init| && init[j].Fill? && init[j].now == l[p].expires - ttl;
        assert es[j] == init[j];
      } else {
        assert es[|init|] == e;
      }
    }
  }

  lemma {:induction false} AllDated(es: seq<Event>, c: Setup)
    ensures Dated(HandleAll(es, c).l, es, c.ttl)
  {
    if es != [] {
      var init, e := es[..|es| - 1], es[|es| - 1];
      AllDated(init, c);
      HandleDates(HandleAll(init, c), c, e);
      DatedOn(HandleAll(init, c).l, HandleAll(es, c).l, init, e, c.ttl);
      assert init + [e] == es;
    }
  }

  /** Nothing in the sequence has expired at `now`. */
  ghost predicate Unexpired(l: seq<Item>, now: int) {
    forall i | 0 <= i < |l| :: now <= l[i].expires
  }

  lemma AskedUnexpired(es: seq<Event>, ask: Event, c: Setup)
    requires ask.Ask? && AskedInTime(es + [ask], c.ttl)
    ensures Unexpired(HandleAll(es, c).l, ask.now)
  {
    AllDated(es, c);
    var l, whole := HandleAll(es, c).l, es + [ask];
    forall i | 0 <= i < |l| ensures ask.now <= l[i].expires {
      assert FillAt(l[i].expires - c.ttl, es);
      var j :| 0 <= j < |es| && es[j].Fill? && es[j].now == l[i].expires - c.ttl;
      assert whole[|es|] == ask && whole[j] == es[j];
    }
  }

  // ---- the steps that keep the smaller cache in the lead ----

  ghost predicate Hits(l: seq<Item>, e: Event)
    requires e.Ask?
  {
    Get(l, e.key, e.now).1.Hit?
  }

  /** The same requests are being answered, and the smaller cache leads the larger. */
  ghost predicate InStep(d: Desk, b: Desk, small: Setup, large: Setup) {
    && Keyed(d.l) && Keyed(b.l) && |b.l| <= large.capacity
    && Leads(d.l, b.l, small.capacity) && d.waiting == b.waiting
  }

  lemma GetFronts(l: seq<Item>, key: string, now: int)
    requires Keyed(l) && Unexpired(l, now)
    ensures var (m, r) := Get(l, key, now);
            && (r.Hit? <==> 0 <= Find(l, key))
            && (if r.Hit? then Fronted(m, l, key, Find(l, key)) && |m| == |l| else m == l)
  {
    var i := Find(l, key);
    if 0 <= i {
      var m := Front(l, i);
      assert forall j | 1 <= j < |m| :: m[j] == l[Behind(j, i)];
    }
  }

  lemma SetFronts(l: seq<Item>, capacity: nat, item: Item)
    requires Keyed(l) && 0 < capacity && |l| <= capacity
    ensures var r := Set(l, capacity, item);
            && Fronted(r, l, item.key, Gap(l, item.key))
            && |r| == Min(if Find(l, item.key) < 0 then |l| + 1 else |l|, capacity)
  {
    var i := Find(l, item.key);
    if 0 <= i {
      var r := Front(l[i := item], i);
      assert forall j | 1 <= j < |r| :: r[j] == l[Behind(j, i)];
    }
  }

  /** Both sequences bring the key to the front. */
  lemma BothFronted(d: Desk, b: Desk, small: Setup, large: Setup, key: string, s: seq<Item>, g: seq<Item>)
    requires InStep(d, b, small, large) && |g| <= large.capacity
    requires Fronted(s, d.l, key, Gap(d.l, key)) && Fronted(g, b.l, key, Gap(b.l, key))
    requires |s| == Min(if Find(d.l, key) < 0 then |d.l| + 1 else |d.l|, small.capacity)
    requires |g| == Min(if Find(b.l, key) < 0 then |b.l| + 1 else |b.l|, large.capacity)
    requires small.capacity <= large.capacity
    ensures Keyed(s) && Keyed(g) && Leads(s, g, small.capacity)
  {
    FindLed(d.l, b.l, small.capacity, key);
    FrontedKeyed(s, d.l, key, Gap(d.l, key));
    FrontedKeyed(g, b.l, key, Gap(b.l, key));
    FrontedLeads(d.l, b.l, s, g, small.capacity, key, Gap(d.l, key), Gap(b.l, key));
  }

  /** Every fill keeps the smaller cache in the lead. */
  lemma FillInStep(d: Desk, b: Desk, small: Setup, large: Setup, e: Event)
    requires InStep(d, b, small, large) && 0 < small.capacity <= large.capacity && e.Fill?
    ensures InStep(Handle(d, small, e), Handle(b, large, e), small, large)
  {
    if e.who in d.waiting {
      var key := d.waiting[e.who];
      var x, y := Item(key, e.value, Expiry(e.now, 0, small.ttl)), Item(key, e.value, Expiry(e.now, 0, large.ttl));
      SetFronts(d.l, small.capacity, x);
      SetFronts(b.l, large.capacity, y);
      BothFronted(d, b, small, large, key, Set(d.l, small.capacity, x), Set(b.l, large.capacity, y));
    }
  }

  /** With nothing expired, so does every lookup that the larger cache does not answer alone. */
  lemma AskInStep(d: Desk, b: Desk, small: Setup, large: Setup, e: Event)
    requires InStep(d, b, small, large) && 0 < small.capacity <= large.capacity && e.Ask?
    requires Unexpired(d.l, e.now) && Unexpired(b.l, e.now) && (Hits(b.l, e) ==> Hits(d.l, e))
    ensures InStep(Handle(d, small, e), Handle(b, large, e), small, large)
    ensures Hits(d.l, e) ==> Hits(b.l, e)
  {
    FindLed(d.l, b.l, small.capacity, e.key);
    GetFronts(d.l, e.key, e.now);
    GetFronts(b.l, e.key, e.now);
    if Hits(d.l, e) {
      BothFronted(d, b, small, large, e.key, Get(d.l, e.key, e.now).0, Get(b.l, e.key, e.now).0);
    }
  }

  /** And so does one that the larger cache answers alone, when its fill in the smaller follows directly. */
  lemma AskFillInStep(d: Desk, b: Desk, small: Setup, large: Setup, e: Event, f: Event)
    requires InStep(d, b, small, large) && 0 < small.capacity <= large.capacity && e.Ask?
    requires Unexpired(d.l, e.now) && Unexpired(b.l, e.now) && Hits(b.l, e) && !Hits(d.l, e)
    requires e.who !in d.waiting && f.Fill? && f.who == e.who
    ensures InStep(Handle(Handle(d, small, e), small, f), Handle(Handle(b, large, e), large, f), small, large)
  {
    GetFronts(d.l, e.key, e.now);
    GetFronts(b.l, e.key, e.now);
    var x := Item(e.key, f.value, Expiry(f.now, 0, small.ttl));
    SetFronts(d.l, small.capacity, x);
    BothFronted(d, b, small, large, e.key, Set(d.l, small.capacity, x), Get(b.l, e.key, e.now).0);
    assert d.waiting[e.who := e.key] - {e.who} == d.waiting;
  }

  // ---- whole sequences of events ----

  /** The lookup at `k` is answered by the larger cache and not by the smaller. */
  ghost predicate Alone(es: seq<Event>, k: nat, small: Setup, large: Setup)
    requires k < |es|
  {
    es[k].Ask? && Hits(HandleAll(es[..k], large).l, es[k]) && !Hits(HandleAll(es[..k], small).l, es[k])
  }

  /** The lookup at `k` is a new request, and the next event is its fill. */
  ghost predicate FilledAtOnce(es: seq<Event>, k: nat, small: Setup)
    requires k < |es|
  {
    && es[k].Ask? && es[k].who !in HandleAll(es[..k], small).waiting
    && k + 1 < |es| && es[k + 1].Fill? && es[k + 1].who == es[k].who
  }

  /** No other event comes between a lookup that only the larger cache answers and its fill in the smaller. */
  ghost predicate Harmless(es: seq<Event>, small: Setup, large: Setup) {
    forall k | 0 <= k < |es| && Alone(es, k, small, large) :: FilledAtOnce(es, k, small)
  }

  lemma AskedInTimePrefix(es: seq<Event>, k: nat, ttl: int)
    requires k <= |es| && AskedInTime(es, ttl)
    ensures AskedInTime(es[..k], ttl)
  {
  }

  lemma HarmlessPrefix(es: seq<Event>, n: nat, small: Setup, large: Setup)
    requires n <= |es| && Harmless(es, small, large)
    requires n == 0 || n == |es| || !Alone(es, n - 1, small, large)
    ensures Harmless(es[..n], small, large)
  {
    var init := es[..n];
    forall k | 0 <= k < n && Alone(init, k, small, large) ensures FilledAtOnce(init, k, small) {
      assert init[..k] == es[..k];
      assert Alone(es, k, small, large);
      assert FilledAtOnce(es, k, small);
    }
  }

  /**
   Inclusion with overlaps: with nothing expired, the keys of the smaller cache stay the first keys of the
   larger, as long as nothing comes between a lookup that only the larger one answers and its fill.
   */
  lemma {:induction false} OverlapInclusion(es: seq<Event>, small: Setup, large: Setup)
    requires 0 < small.capacity <= large.capacity
    requires AskedInTime(es, small.ttl) && AskedInTime(es, large.ttl) && Harmless(es, small, large)
    ensures InStep(HandleAll(es, small), HandleAll(es, large), small, large)
    decreases |es|
  {
    if es != [] {
      var n := |es| - 1;
      if 0 < n && Alone(es, n - 1, small, large) {
        OverlapLastTwo(es, small, large);
      } else {
        OverlapLast(es, small, large);
      }
    }
  }

  lemma {:induction false} OverlapLast(es: seq<Event>, small: Setup, large: Setup)
    requires 0 < small.capacity <= large.capacity && es != []
    requires AskedInTime(es, small.ttl) && AskedInTime(es, large.ttl) && Harmless(es, small, large)
    requires |es| == 1 || !Alone(es, |es| - 2, small, large)
    ensures InStep(HandleAll(es, small), HandleAll(es, large), small, large)
    decreases |es|, 0
  {
    var n := |es| - 1;
    var init, e := es[..n], es[n];
    HarmlessPrefix(es, n, small, large);
    AskedInTimePrefix(es, n, small.ttl);
    AskedInTimePrefix(es, n, large.ttl);
    OverlapInclusion(init, small, large);
    assert init + [e] == es;
    if e.Fill? {
      FillInStep(HandleAll(init, small), HandleAll(init, large), small, large, e);
    } else {
      AskedUnexpired(init, e, small);
      AskedUnexpired(init, e, large);
      assert !Alone(es, n, small, large);
      AskInStep(HandleAll(init, small), HandleAll(init, large), small, large, e);
    }
  }

  lemma {:induction false} OverlapLastTwo(es: seq<Event>, small: Setup, large: Setup)
    requires 0 < small.capacity <= large.capacity && |es| >= 2
    requires AskedInTime(es, small.ttl) && AskedInTime(es, large.ttl) && Harmless(es, small, large)
    requires Alone(es, |es| - 2, small, large)
    ensures InStep(HandleAll(es, small), HandleAll(es, large), small, large)
    decreases |es|, 0
  {
    var n := |es| - 2;
    var init, e, f := es[..n], es[n], es[n + 1];
    assert FilledAtOnce(es, n, small);
    assert 0 < n ==> !FilledAtOnce(es, n - 1, small);
    HarmlessPrefix(es, n, small, large);
    AskedInTimePrefix(es, n, small.ttl);
    AskedInTimePrefix(es, n, large.ttl);
    OverlapInclusion(init, small, large);
    assert init + [e] == es[..n + 1] && es[..n + 1][..n] == init;
    AskedInTimePrefix(es, n + 1, small.ttl);
    AskedInTimePrefix(es, n + 1, large.ttl);
    AskedUnexpired(init, e, small);
    AskedUnexpired(init, e, large);
    HandleMore(init, e, small);
    HandleMore(init, e, large);
    AskFillInStep(HandleAll(init, small), HandleAll(init, large), small, large, e, f);
  }

  /** So the next request hits the larger cache whenever it hits the smaller. */
  lemma OverlapHits(es: seq<Event>, ask: Event, small: Setup, large: Setup)
    requires 0 < small.capacity <= large.capacity && ask.Ask? && Harmless(es, small, large)
    requires AskedInTime(es + [ask], small.ttl) && AskedInTime(es + [ask], large.ttl)
    ensures Hits(HandleAll(es, small).l, ask) ==> Hits(HandleAll(es, large).l, ask)
  {
    assert (es + [ask])[..|es|] == es;
    AskedInTimePrefix(es + [ask], |es|, small.ttl);
    AskedInTimePrefix(es + [ask], |es|, large.ttl);
    OverlapInclusion(es, small, large);
    AskedUnexpired(es, ask, large);
    FindLed(HandleAll(es, small).l, HandleAll(es, large).l, small.capacity, ask.key);
  }

  /** Requests that do not overlap at all are harmless, whatever the caches answer. */
  lemma {:induction false} InTurnHarmless(trace: seq<Access>, small: Setup, large: Setup)
    ensures Harmless(InTurn(trace), small, large)
  {
    if trace != [] {
      var n := |trace| - 1;
      var before, es := InTurn(trace[..n]), InTurn(trace);
      var m := |before|;
      InTurnHarmless(trace[..n], small, large);
      InTurnIsServed(trace[..n], small);
      assert es[..m] == before && es[m].Ask? && es[m + 1].Fill? && es[m].who == es[m + 1].who;
      forall k | 0 <= k < |es| && Alone(es, k, small, large) ensures FilledAtOnce(es, k, small) {
        if k < m {
          assert before[..k] == es[..k];
          assert Alone(before, k, small, large);
        }
      }
    }
  }

  // ---- an overlap that does harm ----

  /** The request for A that misses in the smaller cache while C and D pass it. */
  function Overlapping(): seq<Event> {
    InTurn([Access("A", "1", 0, 0), Access("B", "2", 0, 0)])
    + [Ask(2, "A", 0), Ask(3, "C", 0), Fill(3, "4", 0), Ask(4, "D", 0), Fill(4, "5", 0), Fill(2, "3", 0)]
  }

  lemma InTurnPair(c: Setup)
    requires c.ttl == 10 && (c.capacity == 1 || c.capacity == 2)
    ensures HandleAll(InTurn([Access("A", "1", 0, 0), Access("B", "2", 0, 0)]), c) ==
            Desk([Item("B", "2", 10)] + if c.capacity == 1 then [] else [Item("A", "1", 10)], map[])
  {
    var two := [Access("A", "1", 0, 0), Access("B", "2", 0, 0)];
    var one := two[..1];
    InTurnIsServed(two, c);
    assert one[..0] == [] && one == [Access("A", "1", 0, 0)];
    assert Served(one, c) == [Item("A", "1", 10)];
  }

  /** A request for a new key, asked and filled with nothing between. */
  lemma Passes(es: seq<Event>, c: Setup, who: nat, key: string, value: string, now: int)
    requires Find(HandleAll(es, c).l, key) < 0 && who !in HandleAll(es, c).waiting
    ensures var d := HandleAll(es, c);
            var item := Item(key, value, Expiry(now, 0, c.ttl));
            HandleAll(es + [Ask(who, key, now), Fill(who, value, now)], c) ==
            Desk(([item] + d.l)[..Min(1 + |d.l|, c.capacity)], d.waiting)
  {
    var d := HandleAll(es, c);
    HandleMore(es, Ask(who, key, now), c);
    HandleMore(es + [Ask(who, key, now)], Fill(who, value, now), c);
    assert es + [Ask(who, key, now), Fill(who, value, now)] == es + [Ask(who, key, now)] + [Fill(who, value, now)];
    assert d.waiting[who := key] - {who} == d.waiting;
  }

  lemma OverlapAsked(c: Setup, asked: seq<Event>)
    requires c.ttl == 10 && (c.capacity == 1 || c.capacity == 2)
    requires asked == InTurn([Access("A", "1", 0, 0), Access("B", "2", 0, 0)]) + [Ask(2, "A", 0)]
    ensures HandleAll(asked, c) ==
            if c.capacity == 1 then Desk([Item("B", "2", 10)], map[2 := "A"])
            else Desk([Item("A", "1", 10), Item("B", "2", 10)], map[])
  {
    var before := InTurn([Access("A", "1", 0, 0), Access("B", "2", 0, 0)]);
    InTurnPair(c);
    HandleMore(before, Ask(2, "A", 0), c);
  }

  lemma OverlapPassed(c: Setup, asked: seq<Event>)
    requires c.ttl == 10 && (c.capacity == 1 || c.capacity == 2)
    requires HandleAll(asked, c) ==
             if c.capacity == 1 then Desk([Item("B", "2", 10)], map[2 := "A"])
             else Desk([Item("A", "1", 10), Item("B", "2", 10)], map[])
    ensures HandleAll(asked + [Ask(3, "C", 0), Fill(3, "4", 0)] + [Ask(4, "D", 0), Fill(4, "5", 0)], c) ==
            if c.capacity == 1 then Desk([Item("D", "5", 10)], map[2 := "A"])
            else Desk([Item("D", "5", 10), Item("C", "4", 10)], map[])
  {
    Passes(asked, c, 3, "C", "4", 0);
    Passes(asked + [Ask(3, "C", 0), Fill(3, "4", 0)], c, 4, "D", "5", 0);
  }

  /**
   Inclusion is lost when requests overlap, with nothing expired: the larger cache answers A at once and has
   evicted it again by the time the smaller one stores it.
   */
  lemma OverlapBreaksInclusion()
    ensures HandleAll(Overlapping(), Setup(1, 10)).l == [Item("A", "3", 10)]
    ensures HandleAll(Overlapping(), Setup(2, 10)).l == [Item("D", "5", 10), Item("C", "4", 10)]
  {
    var fill := Fill(2, "3", 0);
    var asked := InTurn([Access("A", "1", 0, 0), Access("B", "2", 0, 0)]) + [Ask(2, "A", 0)];
    var es := asked + [Ask(3, "C", 0), Fill(3, "4", 0)] + [Ask(4, "D", 0), Fill(4, "5", 0)];
    assert es + [fill] == Overlapping();
    forall capacity | capacity == 1 || capacity == 2
      ensures HandleAll(es, Setup(capacity, 10)) ==
              if capacity == 1 then Desk([Item("D", "5", 10)], map[2 := "A"])
              else Desk([Item("D", "5", 10), Item("C", "4", 10)], map[])
    {
      OverlapAsked(Setup(capacity, 10), asked);
      OverlapPassed(Setup(capacity, 10), asked);
    }
    HandleMore(es, fill, Setup(1, 10));
    HandleMore(es, fill, Setup(2, 10));
  }
}
