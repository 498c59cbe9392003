/**
 The order a batch run sends its lines in (internal/batch/batch.go). A line is represented by the
 hash `leadingPrefix` gives it: lines with equal hashes share a leading prompt.
 */
module DispatchOrder {

  function FirstFrom(prefix: seq<int>, n: nat, k: nat): (m: nat)
    requires k <= n < |prefix|
    ensures k <= m <= n && prefix[m] == prefix[n]
    ensures forall j | k <= j < m :: prefix[j] != prefix[n]
    decreases n - k
  {
    if prefix[k] == prefix[n] then k else FirstFrom(prefix, n, k + 1)
  }

  /** The first line of the group line `n` belongs to. */
  function First(prefix: seq<int>, n: nat): (m: nat)
    requires n < |prefix|
    ensures m <= n && prefix[m] == prefix[n]
    ensures forall j | 0 <= j < m :: prefix[j] != prefix[n]
  {
    FirstFrom(prefix, n, 0)
  }

  /** Every line number below `n`, each exactly once. */
  ghost predicate Permutation(order: seq<nat>, n: nat) {
    && |order| == n
    && (forall i | 0 <= i < n :: order[i] < n)
    && (forall i, j | 0 <= i < j < n :: order[i] != order[j])
    && (forall m: nat | m < n :: m in order)
  }

  predicate Before(key: seq<nat>, m: nat, n: nat)
    requires m < |key| && n < |key|
  {
    key[m] < key[n] || (key[m] == key[n] && m < n)
  }

  ghost predicate Ordered(key: seq<nat>, order: seq<nat>) {
    && (forall i | 0 <= i < |order| :: order[i] < |key|)
    && (forall i, j | 0 <= i < j < |order| :: Before(key, order[i], order[j]))
  }

  function Groups(prefix: seq<int>): (r: seq<nat>)
    ensures |r| == |prefix|
  {
    seq(|prefix|, n requires 0 <= n < |prefix| => First(prefix, n))
  }

  /** The dispatch order as documented: groups by their first line, lines ascending within a group. */
  ghost predicate Grouped(prefix: seq<int>, order: seq<nat>) {
    Permutation(order, |prefix|) && Ordered(Groups(prefix), order)
  }

  // ---- the stable sort ----

  /** Inserts `x` behind every element whose key is not greater. */
  function Insert(key: seq<nat>, s: seq<nat>, x: nat): (r: seq<nat>)
    requires x < |key| && forall i | 0 <= i < |s| :: s[i] < |key|
    ensures |r| == |s| + 1 && forall i | 0 <= i < |r| :: r[i] < |key|
    ensures multiset(r) == multiset(s) + multiset{x}
  {
    if s == [] then [x]
    else
      var last := s[|s| - 1];
      assert s == s[..|s| - 1] + [last];
      if key[last] <= key[x] then s + [x] else Insert(key, s[..|s| - 1], x) + [last]
  }

  /** sort.SliceStable over `s` by `key`. */
  function StableSort(key: seq<nat>, s: seq<nat>): (r: seq<nat>)
    requires forall i | 0 <= i < |s| :: s[i] < |key|
    ensures |r| == |s| && forall i | 0 <= i < |r| :: r[i] < |key|
    ensures multiset(r) == multiset(s)
  {
    if s == [] then []
    else
      assert s == s[..|s| - 1] + [s[|s| - 1]];
      Insert(key, StableSort(key, s[..|s| - 1]), s[|s| - 1])
  }

  lemma AppendOrdered(key: seq<nat>, s: seq<nat>, x: nat)
    requires Ordered(key, s) && x < |key| && forall i | 0 <= i < |s| :: Before(key, s[i], x)
    ensures Ordered(key, s + [x])
  {
  }

  lemma {:induction false} InsertOrdered(key: seq<nat>, s: seq<nat>, x: nat)
    requires Ordered(key, s) && x < |key| && forall i | 0 <= i < |s| :: s[i] < x
    ensures Ordered(key, Insert(key, s, x))
  {
    if s == [] {
    } else if key[s[|s| - 1]] <= key[x] {
      assert forall i | 0 <= i < |s| - 1 :: Before(key, s[i], s[|s| - 1]);
      AppendOrdered(key, s, x);
    } else {
      var init, last := s[..|s| - 1], s[|s| - 1];
      InsertOrdered(key, init, x);
      var r := Insert(key, init, x);
      forall i | 0 <= i < |r| ensures Before(key, r[i], last) {
        assert r[i] in multiset(r);
        assert r[i] == x || r[i] in init;
      }
      AppendOrdered(key, r, last);
    }
  }

  /** Sorting an ascending sequence stably orders it by key and, within a key, ascending. */
  lemma {:induction false} StableSortOrders(key: seq<nat>, s: seq<nat>)
    requires forall i | 0 <= i < |s| :: s[i] < |key|
    requires forall i, j | 0 <= i < j < |s| :: s[i] < s[j]
    ensures Ordered(key, StableSort(key, s))
  {
    if s != [] {
      var init, x := s[..|s| - 1], s[|s| - 1];
      StableSortOrders(key, init);
      var r := StableSort(key, init);
      forall i | 0 <= i < |r| ensures r[i] < x {
        assert r[i] in multiset(r);
        assert r[i] in init;
      }
      InsertOrdered(key, r, x);
    }
  }

  function Identity(n: nat): (r: seq<nat>)
    ensures |r| == n && forall i | 0 <= i < n :: r[i] == i
  {
    seq(n, i => i)
  }

  lemma {:induction false} IdentityOnce(n: nat, x: nat)
    ensures multiset(Identity(n))[x] <= 1
  {
    if n > 0 {
      IdentityOnce(n - 1, x);
      var init := Identity(n - 1);
      assert Identity(n) == init + [n - 1];
      if x == n - 1 {
        assert x !in init;
      }
    }
  }

  lemma TwicePresent(s: seq<nat>, i: nat, j: nat)
    requires i < j < |s| && s[i] == s[j]
    ensures multiset(s)[s[i]] >= 2
  {
    assert s == s[..j] + [s[j]] + s[j + 1..];
    assert s[..j][i] == s[i];
  }

  /** A rearrangement of 0, 1, ..., n-1 holds each number once. */
  lemma RearrangedIsPermutation(order: seq<nat>, n: nat)
    requires multiset(order) == multiset(Identity(n)) && |order| == n
    ensures Permutation(order, n)
  {
    var id := Identity(n);
    forall m: nat | m < n ensures m in order {
      assert id[m] == m;
      assert m in multiset(id);
    }
    forall i | 0 <= i < n ensures order[i] < n {
      assert order[i] in multiset(order);
      assert order[i] in id;
    }
    forall i, j | 0 <= i < j < n ensures order[i] != order[j] {
      IdentityOnce(n, order[i]);
      if order[i] == order[j] {
        TwicePresent(order, i, j);
        assert false;
      }
    }
  }

  // ---- what the order means ----

  lemma {:induction false} SamePosition(key: seq<nat>, a: seq<nat>, b: seq<nat>, k: nat)
    requires Permutation(a, |key|) && Ordered(key, a) && Permutation(b, |key|) && Ordered(key, b)
    requires k < |key|
    ensures a[k] == b[k]
  {
    forall i | 0 <= i < k ensures a[i] == b[i] {
      SamePosition(key, a, b, i);
    }
    assert a[k] in b && b[k] in a;
    var i :| 0 <= i < |b| && b[i] == a[k];
    var j :| 0 <= j < |a| && a[j] == b[k];
    assert k <= i && k <= j;
    assert Before(key, b[k], b[i]) || k == i;
  }

  /** There is only one dispatch order. */
  lemma GroupedUnique(prefix: seq<int>, a: seq<nat>, b: seq<nat>)
    requires Grouped(prefix, a) && Grouped(prefix, b)
    ensures a == b
  {
    forall k | 0 <= k < |a| ensures a[k] == b[k] {
      SamePosition(Groups(prefix), a, b, k);
    }
  }

  lemma SameGroup(prefix: seq<int>, m: nat, n: nat)
    requires m < |prefix| && n < |prefix|
    ensures prefix[m] == prefix[n] <==> First(prefix, m) == First(prefix, n)
  {
  }

  /** Lines that share a prefix are sent without any other line between them, and in file order. */
  lemma GroupsContiguous(prefix: seq<int>, order: seq<nat>, i: nat, j: nat, k: nat)
    requires Grouped(prefix, order) && i <= j <= k < |order|
    requires prefix[order[i]] == prefix[order[k]]
    ensures prefix[order[j]] == prefix[order[i]]
    ensures i < k ==> order[i] < order[k]
  {
    var g := Groups(prefix);
    SameGroup(prefix, order[i], order[k]);
    assert i < j ==> Before(g, order[i], order[j]);
    assert j < k ==> Before(g, order[j], order[k]);
    assert i < k ==> Before(g, order[i], order[k]);
    assert First(prefix, order[j]) == First(prefix, order[i]);
  }

  /** The first line of every line's group, found in one pass. */
  method FirstLines(prefix: seq<int>) returns (group: array<nat>)
    ensures group[..] == Groups(prefix)
  {
    var first: map<int, nat> := map[];
    group := new nat[|prefix|];
    for n := 0 to |prefix|
      invariant forall k | k in first :: first[k] < n && prefix[first[k]] == k
      invariant forall j | 0 <= j < n :: prefix[j] in first && first[prefix[j]] == First(prefix, j)
      invariant forall j | 0 <= j < n :: group[j] == First(prefix, j)
    {
      var k := prefix[n];
      if k !in first {
        first := first[k := n];
      } else {
        SameGroup(prefix, first[k], n);
      }
      group[n] := first[k];
    }
  }

  /** dispatchOrder: the grouped order, or file order when asked. */
  method Compute(prefix: seq<int>, fileOrder: bool) returns (order: seq<nat>)
    ensures fileOrder ==> order == Identity(|prefix|)
    ensures !fileOrder ==> Grouped(prefix, order)
    ensures Permutation(order, |prefix|)
  {
    var lines := new nat[|prefix|];
    for n := 0 to |prefix|
      invariant forall i | 0 <= i < n :: lines[i] == i
    {
      lines[n] := n;
    }
    order := lines[..];
    assert order == Identity(|prefix|);
    if !fileOrder {
      var group := FirstLines(prefix);
      StableSortOrders(group[..], order);
      order := StableSort(group[..], order);
    }
    RearrangedIsPermutation(order, |prefix|);
  }
}
