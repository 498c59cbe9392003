/**
 What the in-memory response cache stands for: a sequence of entries, most recently touched first.
 Times are integers; values are byte strings.
 */
module Recency {
  import opened Numbers
  import opened Sequences

  datatype Item = Item(key: string, value: string, expires: int)

  datatype Lookup = Miss | Hit(value: string)

  // ---- the recency sequence ----

  ghost predicate Keyed(l: seq<Item>) {
    forall i, j | 0 <= i < j < |l| :: l[i].key != l[j].key
  }

  /** The position of `key`, or -1. */
  function Find(l: seq<Item>, key: string): (i: int)
    ensures -1 <= i < |l|
    ensures i < 0 ==> forall j | 0 <= j < |l| :: l[j].key != key
    ensures 0 <= i ==> l[i].key == key
  {
    if l == [] then -1
    else if l[|l| - 1].key == key then |l| - 1
    else Find(l[..|l| - 1], key)
  }

  /** The sequence without its element `i`. */
  function Drop<T>(l: seq<T>, i: nat): (d: seq<T>)
    requires i < |l|
    ensures |d| == |l| - 1
  {
    seq(|l| - 1, j requires 0 <= j < |l| - 1 => if j < i then l[j] else l[j + 1])
  }

  /** The sequence with its element `i` moved to the front. */
  function Front<T>(l: seq<T>, i: nat): (f: seq<T>)
    requires i < |l|
    ensures |f| == |l|
  {
    seq(|l|, j requires 0 <= j < |l| => if j == 0 then l[i] else if j <= i then l[j - 1] else l[j])
  }

  function Total(l: seq<Item>): nat {
    if l == [] then 0 else Total(l[..|l| - 1]) + |l[|l| - 1].value|
  }

  /** A lookup: an expired entry is dropped, a live one becomes the most recent. */
  function Get(l: seq<Item>, key: string, now: int): (seq<Item>, Lookup) {
    var i := Find(l, key);
    if i < 0 then (l, Miss)
    else if now > l[i].expires then (Drop(l, i), Miss)
    else (Front(l, i), Hit(l[i].value))
  }

  /** A store: the entry becomes the most recent, and what no longer fits falls off the other end. */
  function Set(l: seq<Item>, capacity: nat, item: Item): seq<Item> {
    var i := Find(l, item.key);
    if 0 <= i then Front(l[i := item], i)
    else ([item] + l)[..Min(1 + |l|, capacity)]
  }

  /** When a value stored at `now` expires. */
  function Expiry(now: int, ttl: int, defaultTTL: int): int {
    now + if ttl <= 0 then defaultTTL else ttl
  }

  /** The entries whose keys are not in `gone`, in order. */
  function Without(l: seq<Item>, gone: set<string>): seq<Item> {
    if l == [] then []
    else Without(l[..|l| - 1], gone) + if l[|l| - 1].key in gone then [] else [l[|l| - 1]]
  }

  /** The entries that have not expired by `now`, in order. */
  function Live(l: seq<Item>, now: int): seq<Item> {
    if l == [] then []
    else Live(l[..|l| - 1], now) + if now > l[|l| - 1].expires then [] else [l[|l| - 1]]
  }

  /** The entries whose keys do not start with `prefix`, in order. */
  function Outside(l: seq<Item>, prefix: string): seq<Item> {
    if l == [] then []
    else Outside(l[..|l| - 1], prefix) + if prefix <= l[|l| - 1].key then [] else [l[|l| - 1]]
  }

  // ---- facts about the sequence ----

  lemma FindUnique(l: seq<Item>, i: nat)
    requires Keyed(l) && i < |l|
    ensures Find(l, l[i].key) == i
  {
    var j := Find(l, l[i].key);
    assert forall a, b | 0 <= a < |l| && 0 <= b < |l| && l[a].key == l[b].key :: a == b;
  }

  lemma {:induction false} TotalConcat(a: seq<Item>, b: seq<Item>)
    ensures Total(a + b) == Total(a) + Total(b)
  {
    if b == [] {
      assert a + b == a;
    } else {
      TotalConcat(a, b[..|b| - 1]);
      assert (a + b)[..|a + b| - 1] == a + b[..|b| - 1];
    }
  }

  lemma TotalDrop(l: seq<Item>, i: nat)
    requires i < |l|
    ensures Total(l) == Total(Drop(l, i)) + |l[i].value|
  {
    assert Drop(l, i) == l[..i] + l[i + 1..];
    TotalConcat(l[..i], l[i + 1..]);
    TotalConcat(l[..i] + [l[i]], l[i + 1..]);
    TotalConcat(l[..i], [l[i]]);
    assert [l[i]][..0] == [];
    assert l == l[..i] + [l[i]] + l[i + 1..];
  }

  lemma FrontSplits<T>(l: seq<T>, i: nat)
    requires i < |l|
    ensures Front(l, i) == [l[i]] + Drop(l, i)
  {
  }

  lemma TotalFront(x: Item, l: seq<Item>)
    ensures Total([x] + l) == |x.value| + Total(l)
  {
    TotalConcat([x], l);
    assert [x][..0] == [];
  }

  lemma TotalReplaced(l: seq<Item>, i: nat, x: Item)
    requires i < |l|
    ensures Total(l[i := x]) == Total(l) - |l[i].value| + |x.value|
  {
    TotalDrop(l, i);
    TotalDrop(l[i := x], i);
    assert Drop(l[i := x], i) == Drop(l, i);
  }

  lemma TotalMoved(l: seq<Item>, i: nat)
    requires i < |l|
    ensures Total(Front(l, i)) == Total(l)
  {
    FrontSplits(l, i);
    TotalDrop(l, i);
    TotalFront(l[i], Drop(l, i));
  }

  lemma {:induction false} WithoutConcat(a: seq<Item>, b: seq<Item>, gone: set<string>)
    ensures Without(a + b, gone) == Without(a, gone) + Without(b, gone)
  {
    if b == [] {
      assert a + b == a;
    } else {
      var init, last := b[..|b| - 1], b[|b| - 1];
      WithoutConcat(a, init, gone);
      assert (a + b)[..|a + b| - 1] == a + init;
      Regroup(Without(a, gone), Without(init, gone), if last.key in gone then [] else [last]);
    }
  }

  lemma {:induction false} WithoutMore(l: seq<Item>, gone: set<string>, k: string)
    ensures Without(Without(l, gone), {k}) == Without(l, gone + {k})
  {
    if l != [] {
      var init, last := l[..|l| - 1], l[|l| - 1];
      WithoutMore(init, gone, k);
      var tail := if last.key in gone then [] else [last];
      WithoutConcat(Without(init, gone), tail, {k});
      assert tail != [] ==> tail[..0] == [];
    }
  }

  lemma {:induction false} WithoutAbsent(l: seq<Item>, k: string)
    requires forall i | 0 <= i < |l| :: l[i].key != k
    ensures Without(l, {k}) == l
  {
    if l != [] {
      WithoutAbsent(l[..|l| - 1], k);
      assert l == l[..|l| - 1] + [l[|l| - 1]];
    }
  }

  /** Deleting one key is dropping its only entry. */
  lemma {:induction false} WithoutOne(l: seq<Item>, i: nat)
    requires Keyed(l) && i < |l|
    ensures Without(l, {l[i].key}) == Drop(l, i)
  {
    var init, last := l[..|l| - 1], l[|l| - 1];
    if i == |l| - 1 {
      WithoutAbsent(init, l[i].key);
      assert Drop(l, i) == init;
    } else {
      WithoutOne(init, i);
      assert Drop(l, i) == Drop(init, i) + [last];
    }
  }

  lemma {:induction false} WithoutNone(l: seq<Item>)
    ensures Without(l, {}) == l
  {
    if l != [] {
      WithoutNone(l[..|l| - 1]);
    }
  }

  /** `late` holds the keys of the expired entries and of no others. */
  ghost predicate Marked(l: seq<Item>, late: set<string>, now: int) {
    forall i | 0 <= i < |l| :: l[i].key in late <==> now > l[i].expires
  }

  lemma {:induction false} WithoutExpired(l: seq<Item>, gone: set<string>, now: int)
    requires Marked(l, gone, now)
    ensures Without(l, gone) == Live(l, now)
  {
    if l != [] {
      WithoutExpired(l[..|l| - 1], gone, now);
    }
  }

  lemma {:induction false} WithoutPrefix(l: seq<Item>, gone: set<string>, prefix: string)
    requires forall i | 0 <= i < |l| :: l[i].key in gone <==> prefix <= l[i].key
    ensures Without(l, gone) == Outside(l, prefix)
  {
    if l != [] {
      WithoutPrefix(l[..|l| - 1], gone, prefix);
    }
  }

  lemma {:induction false} WithoutFrom(l: seq<Item>, gone: set<string>)
    ensures |Without(l, gone)| <= |l|
    ensures forall i | 0 <= i < |Without(l, gone)| :: Without(l, gone)[i] in l
  {
    if l != [] {
      WithoutFrom(l[..|l| - 1], gone);
    }
  }

  // ---- walking the keys ----

  lemma LateKeys(l: seq<Item>, now: int, keys: set<string>) returns (late: set<string>)
    requires Keyed(l) && forall i | 0 <= i < |l| :: l[i].key in keys
    ensures late <= keys && Marked(l, late, now)
  {
    late := set i | 0 <= i < |l| && now > l[i].expires :: l[i].key;
    assert forall a, b | 0 <= a < |l| && 0 <= b < |l| && l[a].key == l[b].key :: a == b;
  }

  /** An entry still there is late exactly when it was. */
  lemma LateStays(l: seq<Item>, late: set<string>, gone: set<string>, i: nat, now: int)
    requires i < |Without(l, gone)| && Marked(l, late, now)
    ensures Without(l, gone)[i].key in late <==> now > Without(l, gone)[i].expires
  {
    WithoutFrom(l, gone);
    assert Without(l, gone)[i] in l;
  }

  /** Before a walk over `keys` that takes out the doomed ones, all entries are there. */
  lemma WalkBegins(l: seq<Item>, doomed: set<string>, keys: set<string>)
    requires doomed <= keys
    ensures Without(l, doomed - keys) == l
  {
    assert doomed - keys == {};
    WithoutNone(l);
  }

  /** Walking past one key takes its entry out exactly when it is doomed. */
  lemma WalkStep(l: seq<Item>, doomed: set<string>, rest: set<string>, k: string)
    requires k in rest
    ensures Without(l, doomed - (rest - {k})) ==
            if k in doomed then Without(Without(l, doomed - rest), {k}) else Without(l, doomed - rest)
  {
    if k in doomed {
      assert doomed - (rest - {k}) == doomed - rest + {k};
      WithoutMore(l, doomed - rest, k);
    } else {
      assert doomed - (rest - {k}) == doomed - rest;
    }
  }
}
