/**
 The in-memory response cache (internal/cache/memory.go): a map, a list and a byte count over shared
 mutable entries, proved to hold the recency sequence of module Recency.
 */
module LruCache {
  import opened Numbers
  import opened Sequences
  import opened Recency

  class Entry {
    const key: string
    var value: string
    var expiresAt: int

    constructor (key: string, value: string, expiresAt: int)
      ensures this.key == key && this.value == value && this.expiresAt == expiresAt
    {
      this.key, this.value, this.expiresAt := key, value, expiresAt;
    }

    function View(): Item
      reads this
    {
      Item(key, value, expiresAt)
    }
  }

  function Position(es: seq<Entry>, e: Entry): (i: nat)
    requires e in es
    ensures i < |es| && es[i] == e
  {
    if es[|es| - 1] == e then |es| - 1 else Position(es[..|es| - 1], e)
  }

  /** The map and the list hold the same entries, each once and under its own key. */
  ghost predicate Mirror(items: map<string, Entry>, order: seq<Entry>) {
    && (forall i, j | 0 <= i < j < |order| :: order[i] != order[j])
    && (forall k | k in items :: items[k].key == k && items[k] in order)
    && (forall i | 0 <= i < |order| :: order[i].key in items && items[order[i].key] == order[i])
  }

  lemma MirrorKeys(items: map<string, Entry>, order: seq<Entry>)
    requires Mirror(items, order)
    ensures forall i, j | 0 <= i < j < |order| :: order[i].key != order[j].key
  {
    forall i, j | 0 <= i < j < |order| ensures order[i].key != order[j].key {
      assert items[order[i].key] == order[i] && items[order[j].key] == order[j];
    }
  }

  lemma MirrorDrop(items: map<string, Entry>, order: seq<Entry>, i: nat)
    requires Mirror(items, order) && i < |order|
    ensures Mirror(items - {order[i].key}, Drop(order, i))
  {
    MirrorKeys(items, order);
    var d := Drop(order, i);
    forall k | k in items - {order[i].key} ensures items[k] in d {
      var p := Position(order, items[k]);
      assert p != i;
      assert d[if p < i then p else p - 1] == items[k];
    }
  }

  lemma MirrorPush(items: map<string, Entry>, order: seq<Entry>, e: Entry)
    requires Mirror(items, order) && e.key !in items
    ensures Mirror(items[e.key := e], [e] + order)
  {
    var o := [e] + order;
    assert forall j | 1 <= j < |o| :: o[j] == order[j - 1];
    assert o[0] == e;
    forall k | k in items ensures items[k] in o {
      assert o[Position(order, items[k]) + 1] == items[k];
    }
  }

  lemma {:induction false} MirrorSize(items: map<string, Entry>, order: seq<Entry>)
    requires Mirror(items, order)
    decreases |order|
    ensures |items| == |order|
  {
    if order == [] {
      assert items == map[];
    } else {
      var n := |order| - 1;
      var k := order[n].key;
      MirrorDrop(items, order, n);
      MirrorSize(items - {k}, Drop(order, n));
      assert items.Keys == (items - {k}).Keys + {k};
      assert |items| == |items.Keys| && |items - {k}| == |(items - {k}).Keys|;
    }
  }

  lemma PositionUnique(items: map<string, Entry>, order: seq<Entry>, i: nat)
    requires Mirror(items, order) && i < |order|
    ensures Position(order, order[i]) == i
  {
    assert forall a, b | 0 <= a < |order| && 0 <= b < |order| && order[a] == order[b] :: a == b;
  }

  /** The entry the map gives for a key is the one the sequence holds under it. */
  lemma Located(items: map<string, Entry>, order: seq<Entry>, l: seq<Item>, key: string)
    requires Mirror(items, order) && |l| == |order|
    requires forall i | 0 <= i < |l| :: l[i].key == order[i].key
    ensures key in items <==> 0 <= Find(l, key)
    ensures key in items ==> Find(l, key) == Position(order, items[key])
    ensures Keyed(l)
  {
    MirrorKeys(items, order);
    assert forall i | 0 <= i < |order| :: order[i].key in items;
    if key in items {
      FindUnique(l, Position(order, items[key]));
    }
  }

  lemma Promotion(items: map<string, Entry>, order: seq<Entry>, i: nat)
    requires Mirror(items, order) && i < |order|
    ensures Mirror(items, Front(order, i))
  {
    FrontSplits(order, i);
    var e := order[i];
    MirrorDrop(items, order, i);
    MirrorPush(items - {e.key}, Drop(order, i), e);
    assert (items - {e.key})[e.key := e] == items;
  }

  class Memory {
    const maxEntries: nat
    const defaultTTL: int
    var items: map<string, Entry>
    var order: seq<Entry>
    var bytes: int
    var hits: nat
    var misses: nat
    var evicted: nat
    /** The recency sequence, most recently touched first. */
    ghost var contents: seq<Item>

    /** Map and list agree, the sequence is what the list shows, and the byte count is its own. */
    ghost predicate Linked()
      reads this, order
    {
      && Mirror(items, order)
      && |contents| == |order|
      && (forall i | 0 <= i < |order| :: contents[i] == order[i].View())
      && bytes == Total(contents)
    }

    ghost predicate Valid()
      reads this, order
    {
      Linked() && 0 < maxEntries && |order| <= maxEntries
    }

    constructor (maxEntries: int, defaultTTL: int)
      ensures Valid() && contents == []
      ensures this.maxEntries == if maxEntries <= 0 then 1000 else maxEntries
      ensures this.defaultTTL == if defaultTTL <= 0 then 86_400_000_000_000 else defaultTTL
      ensures hits == misses == evicted == 0
    {
      this.maxEntries := if maxEntries <= 0 then 1000 else maxEntries;
      this.defaultTTL := if defaultTTL <= 0 then 86_400_000_000_000 else defaultTTL;
      items, order, bytes, hits, misses, evicted := map[], [], 0, 0, 0, 0;
      contents := [];
    }

    method RemoveLocked(e: Entry)
      requires Linked() && e in order
      modifies this`items, this`order, this`bytes, this`contents
      ensures Linked()
      ensures order == Drop(old(order), Position(old(order), e))
      ensures contents == Drop(old(contents), Position(old(order), e))
      ensures items == old(items) - {e.key}
    {
      var i := Position(order, e);
      MirrorDrop(items, order, i);
      TotalDrop(contents, i);
      items, order, bytes := items - {e.key}, Drop(order, i), bytes - |e.value|;
      contents := Drop(contents, i);
    }

    /** The list's own move to the front. */
    method MoveToFront(e: Entry)
      requires Linked() && e in order
      modifies this`order, this`contents
      ensures Linked()
      ensures order == Front(old(order), Position(old(order), e))
      ensures contents == Front(old(contents), Position(old(order), e))
    {
      var i := Position(order, e);
      Promotion(items, order, i);
      TotalMoved(contents, i);
      order := Front(order, i);
      contents := Front(contents, i);
    }

    method CountMiss()
      requires Valid()
      modifies this`misses
      ensures Valid() && misses == old(misses) + 1
    {
      misses := misses + 1;
    }

    /** A lookup at time `now`. */
    method Get(key: string, now: int) returns (r: Lookup, ghost expiry: int)
      requires Valid()
      modifies this`items, this`order, this`bytes, this`hits, this`misses, this`contents
      ensures Valid()
      ensures (contents, r) == Recency.Get(old(contents), key, now)
      ensures r.Hit? ==> Item(key, r.value, expiry) in old(contents) && now <= expiry
      ensures hits == old(hits) + (if r.Hit? then 1 else 0)
      ensures misses == old(misses) + (if r.Hit? then 0 else 1)
    {
      ghost var l := contents;
      expiry := 0;
      Located(items, order, contents, key);
      if key !in items {
        CountMiss();
        return Miss, expiry;
      }
      var e := items[key];
      expiry := e.expiresAt;
      if now > e.expiresAt {
        assert Recency.Get(l, key, now) == (Drop(l, Position(order, e)), Miss);
        RemoveLocked(e);
        CountMiss();
        return Miss, expiry;
      }
      assert l[Position(order, e)] == Item(key, e.value, expiry);
      assert Recency.Get(l, key, now) == (Front(l, Position(order, e)), Hit(e.value));
      MoveToFront(e);
      hits := hits + 1;
      return Hit(e.value), expiry;
    }

    /** The entry under an old key takes a new value and expiry, where it is. */
    method Overwrite(e: Entry, value: string, expiresAt: int)
      requires Linked() && e in order
      modifies this`bytes, this`contents, e
      ensures Linked()
      ensures var i := Position(order, e);
        contents == old(contents)[i := Item(e.key, value, expiresAt)]
    {
      ghost var i := Position(order, e);
      ghost var item := Item(e.key, value, expiresAt);
      TotalReplaced(contents, i, item);
      bytes := bytes - |e.value|;
      e.value, e.expiresAt := value, expiresAt;
      bytes := bytes + |e.value|;
      contents := contents[i := item];
      assert forall j | 0 <= j < |order| && j != i :: order[j] != e;
    }

    /** A new entry at the front of the list and under its key. */
    method PushFront(e: Entry)
      requires Linked() && e.key !in items
      modifies this`items, this`order, this`bytes, this`contents
      ensures Linked()
      ensures order == [e] + old(order)
      ensures contents == [e.View()] + old(contents)
    {
      MirrorPush(items, order, e);
      TotalFront(e.View(), contents);
      order := [e] + order;
      items := items[e.key := e];
      bytes := bytes + |e.value|;
      contents := [e.View()] + contents;
    }

    method CountEviction()
      requires Linked()
      modifies this`evicted
      ensures Linked() && evicted == old(evicted) + 1
    {
      evicted := evicted + 1;
    }

    /** The back of the list leaves. */
    method EvictTail(ghost l: seq<Item>)
      requires Linked() && order != [] && contents <= l
      modifies this`items, this`order, this`bytes, this`evicted, this`contents
      ensures Linked() && |items| == |contents| == |old(contents)| - 1
      ensures contents <= old(contents) && contents <= l
      ensures evicted == old(evicted) + 1
    {
      var tail := order[|order| - 1];
      PositionUnique(items, order, |order| - 1);
      RemoveLocked(tail);
      MirrorSize(items, order);
      CountEviction();
    }

    /** The eviction loop: entries leave from the back until the rest fit. */
    method Evict()
      requires Linked() && 0 < maxEntries
      modifies this`items, this`order, this`bytes, this`evicted, this`contents
      ensures Valid()
      ensures contents == old(contents)[..Min(|old(contents)|, maxEntries)]
      ensures evicted == old(evicted) + |old(contents)| - |contents|
    {
      MirrorSize(items, order);
      ghost var l := contents;
      while |items| > maxEntries
        invariant Linked() && |items| == |contents|
        invariant Min(|l|, maxEntries) <= |contents|
        invariant contents <= l
        invariant evicted == old(evicted) + |l| - |contents|
      {
        EvictTail(l);
      }
      PrefixIsSlice(contents, l);
    }

    /** A store under a key the cache holds. */
    method Renew(e: Entry, value: string, expiresAt: int)
      requires Valid() && e in order
      modifies this`order, this`bytes, this`contents, e
      ensures Valid()
      ensures var i := Position(old(order), e);
        contents == Front(old(contents)[i := Item(e.key, value, expiresAt)], i)
    {
      Overwrite(e, value, expiresAt);
      MoveToFront(e);
    }

    /** A store under a new key. */
    method Insert(key: string, value: string, expiresAt: int)
      requires Valid() && key !in items
      modifies this`items, this`order, this`bytes, this`evicted, this`contents
      ensures Valid()
      ensures contents == ([Item(key, value, expiresAt)] + old(contents))[..Min(1 + |old(contents)|, maxEntries)]
      ensures evicted == old(evicted) + if |old(contents)| < maxEntries then 0 else 1
    {
      var e := new Entry(key, value, expiresAt);
      PushFront(e);
      Evict();
    }

    /** A store at time `now`. */
    method Set(key: string, value: string, ttl: int, now: int)
      requires Valid()
      modifies this`items, this`order, this`bytes, this`evicted, this`contents, order
      ensures Valid()
      ensures contents == Recency.Set(old(contents), maxEntries, Item(key, value, Expiry(now, ttl, defaultTTL)))
      ensures evicted == old(evicted) + if key in old(items) || |old(contents)| < maxEntries then 0 else 1
    {
      var expiresAt := Expiry(now, ttl, defaultTTL);
      ghost var l, item := contents, Item(key, value, expiresAt);
      Located(items, order, contents, key);
      if key in items {
        var e := items[key];
        assert Recency.Set(l, maxEntries, item) == Front(l[Position(order, e) := item], Position(order, e));
        Renew(e, value, expiresAt);
      } else {
        assert Recency.Set(l, maxEntries, item) == ([item] + l)[..Min(1 + |l|, maxEntries)];
        Insert(key, value, expiresAt);
      }
      assert contents == Recency.Set(l, maxEntries, item);
    }

    method RemoveKey(key: string)
      requires Linked() && key in items
      modifies this`items, this`order, this`bytes, this`contents
      ensures Linked() && |contents| == |old(contents)| - 1
      ensures contents == Without(old(contents), {key})
      ensures items == old(items) - {key}
    {
      Located(items, order, contents, key);
      WithoutOne(contents, Find(contents, key));
      RemoveLocked(items[key]);
    }

    method Delete(key: string)
      requires Valid()
      modifies this`items, this`order, this`bytes, this`contents
      ensures Valid()
      ensures contents == Without(old(contents), {key})
    {
      Located(items, order, contents, key);
      if key in items {
        RemoveKey(key);
      } else {
        WithoutAbsent(contents, key);
      }
    }

    /** Every key under `ns` and a slash goes, whatever order the map is walked in. */
    method DeleteNamespace(ns: string)
      requires Valid()
      modifies this`items, this`order, this`bytes, this`contents
      ensures Valid()
      ensures contents == Outside(old(contents), ns + "/")
    {
      var prefix := ns + "/";
      var rest := items.Keys;
      ghost var l := contents;
      ghost var doomed := set k | k in rest && prefix <= k;
      Located(items, order, contents, "");
      WalkBegins(l, doomed, rest);
      while rest != {}
        invariant Valid() && rest <= items.Keys
        invariant contents == Without(l, doomed - rest)
        decreases rest
      {
        var k :| k in rest;
        WalkStep(l, doomed, rest, k);
        if prefix <= k {
          RemoveKey(k);
        }
        rest := rest - {k};
      }
      assert doomed - rest == doomed;
      WithoutPrefix(l, doomed, prefix);
    }

    method DeleteAll()
      requires Valid()
      modifies this`items, this`order, this`bytes, this`contents
      ensures Valid() && contents == []
    {
      items, order, bytes, contents := map[], [], 0, [];
    }

    /** The test of one entry, which is still what it was when the sweep began. */
    method IsLate(key: string, now: int, ghost l: seq<Item>, ghost late: set<string>, ghost gone: set<string>)
      returns (r: bool)
      requires Linked() && key in items && contents == Without(l, gone) && Marked(l, late, now)
      ensures r == (key in late)
    {
      Located(items, order, contents, key);
      LateStays(l, late, gone, Find(contents, key), now);
      r := now > items[key].expiresAt;
    }

    /** What the sweep does with a late entry. */
    method Expire(key: string)
      requires Valid() && key in items
      modifies this`items, this`order, this`bytes, this`contents, this`evicted
      ensures Valid() && items == old(items) - {key}
      ensures contents == Without(old(contents), {key})
      ensures evicted + |contents| == old(evicted) + |old(contents)|
    {
      RemoveKey(key);
      CountEviction();
    }

    /** The sweep at one key. */
    method SweepOne(key: string, now: int, ghost l: seq<Item>, ghost late: set<string>, ghost gone: set<string>)
      requires Valid() && key in items && contents == Without(l, gone) && Marked(l, late, now)
      modifies this`items, this`order, this`bytes, this`contents, this`evicted
      ensures Valid() && old(items.Keys) - {key} <= items.Keys
      ensures contents == if key in late then Without(old(contents), {key}) else old(contents)
      ensures evicted + |contents| == old(evicted) + |old(contents)|
    {
      var isLate := IsLate(key, now, l, late, gone);
      if isLate {
        Expire(key);
      }
    }

    /** Every entry past its expiry goes, and is counted. */
    method Sweep(now: int)
      requires Valid()
      modifies this`items, this`order, this`bytes, this`contents, this`evicted
      ensures Valid()
      ensures contents == Live(old(contents), now)
      ensures evicted == old(evicted) + |old(contents)| - |contents|
    {
      var rest := items.Keys;
      ghost var l := contents;
      Located(items, order, contents, "");
      ghost var late := LateKeys(l, now, rest);
      WalkBegins(l, late, rest);
      while rest != {}
        invariant Valid() && rest <= items.Keys
        invariant contents == Without(l, late - rest)
        invariant evicted + |contents| == old(evicted) + |l|
        decreases rest
      {
        var k :| k in rest;
        WalkStep(l, late, rest, k);
        SweepOne(k, now, l, late, late - rest);
        rest := rest - {k};
      }
      assert late - rest == late;
      WithoutExpired(l, late, now);
    }
  }
}
