/**
 The typo helper (cmd/opod/main.go): the edit distance its table computes is the least cost of any
 edit script, and the suggestion is the first prefix match or else the first closest candidate.
 Strings are sequences of their bytes.
 */
module EditDistance {
  import opened Numbers
  import opened Text

  // ---- edit scripts ----

  /** One edit at the end of what has been read so far; no byte is edited twice. */
  datatype Edit = Keep | Substitute(c: char) | Insert(c: char) | Delete | Swap

  function Then(made: Option<string>, more: string): Option<string> {
    match made
    case None => None
    case Some(s) => Some(s + more)
  }

  /** What a script makes of the first `n` bytes of `a`, when it fits them. */
  function Apply(script: seq<Edit>, a: string, n: nat): Option<string>
    requires n <= |a|
    decreases |script|
  {
    if script == [] then
      if n == 0 then Some("") else None
    else
      var init := script[..|script| - 1];
      match script[|script| - 1]
      case Keep => if n == 0 then None else Then(Apply(init, a, n - 1), [a[n - 1]])
      case Substitute(c) => if n == 0 then None else Then(Apply(init, a, n - 1), [c])
      case Insert(c) => Then(Apply(init, a, n), [c])
      case Delete => if n == 0 then None else Apply(init, a, n - 1)
      case Swap => if n < 2 then None else Then(Apply(init, a, n - 2), [a[n - 1], a[n - 2]])
  }

  /** Every edit but keeping a byte costs one. */
  function Cost(script: seq<Edit>): nat {
    if script == [] then 0
    else Cost(script[..|script| - 1]) + if script[|script| - 1] == Keep then 0 else 1
  }

  // ---- the recurrence ----

  ghost predicate Swapped(a: string, b: string, i: nat, j: nat)
    requires i <= |a| && j <= |b|
  {
    1 < i && 1 < j && a[i - 1] == b[j - 2] && a[i - 2] == b[j - 1]
  }

  /** One cell of the table from its neighbours; `swap` is the cell two up and two left when it applies. */
  function Cell(up: nat, left: nat, corner: nat, same: bool, swap: Option<nat>): nat {
    var v := Min(Min(up + 1, left + 1), corner + if same then 0 else 1);
    if swap.Some? then Min(v, swap.value + 1) else v
  }

  /** The distance between the first `i` bytes of `a` and the first `j` of `b`. */
  ghost function Distance(a: string, b: string, i: nat, j: nat): nat
    requires i <= |a| && j <= |b|
    decreases i + j
  {
    if i == 0 then j
    else if j == 0 then i
    else
      Cell(Distance(a, b, i - 1, j), Distance(a, b, i, j - 1), Distance(a, b, i - 1, j - 1),
           a[i - 1] == b[j - 1], if Swapped(a, b, i, j) then Some(Distance(a, b, i - 2, j - 2)) else None)
  }

  /** The distance is at most what any last edit leaves, plus its cost. */
  lemma DistanceBounded(a: string, b: string, i: nat, j: nat)
    requires i <= |a| && j <= |b|
    ensures 0 < i ==> Distance(a, b, i, j) <= Distance(a, b, i - 1, j) + 1
    ensures 0 < j ==> Distance(a, b, i, j) <= Distance(a, b, i, j - 1) + 1
    ensures 0 < i && 0 < j ==> Distance(a, b, i, j) <= Distance(a, b, i - 1, j - 1) + 1
    ensures 0 < i && 0 < j && a[i - 1] == b[j - 1] ==> Distance(a, b, i, j) <= Distance(a, b, i - 1, j - 1)
    ensures Swapped(a, b, i, j) ==> Distance(a, b, i, j) <= Distance(a, b, i - 2, j - 2) + 1
  {
  }

  // ---- the distance is the least cost of a script ----

  lemma Extend(script: seq<Edit>, e: Edit)
    ensures (script + [e])[..|script|] == script
    ensures Cost(script + [e]) == Cost(script) + if e == Keep then 0 else 1
  {
    assert (script + [e])[..|script|] == script;
  }

  lemma Tail(made: string, more: string, b: string, j: nat)
    requires j <= |b| && made + more == b[..j]
    ensures |made| == j - |more| && made == b[..j - |more|]
    ensures forall k | 0 <= k < |more| :: b[j - |more| + k] == more[k]
  {
    assert forall k | 0 <= k < j :: (made + more)[k] == b[k];
  }

  /** What the end of a script's result says about its last edit. */
  lemma LastStep(script: seq<Edit>, a: string, b: string, i: nat, j: nat) returns (i': nat, j': nat)
    requires i <= |a| && j <= |b| && script != [] && Apply(script, a, i) == Some(b[..j])
    ensures i' <= i && j' <= j
    ensures Apply(script[..|script| - 1], a, i') == Some(b[..j'])
    ensures match script[|script| - 1]
      case Keep => i' == i - 1 && j' == j - 1 && a[i - 1] == b[j - 1]
      case Substitute(_) => i' == i - 1 && j' == j - 1
      case Insert(_) => i' == i && j' == j - 1
      case Delete => i' == i - 1 && j' == j
      case Swap => i' == i - 2 && j' == j - 2 && Swapped(a, b, i, j)
  {
    var init := script[..|script| - 1];
    match script[|script| - 1]
    case Keep =>
      i', j' := i - 1, j - 1;
      Tail(Apply(init, a, i - 1).value, [a[i - 1]], b, j);
    case Substitute(c) =>
      i', j' := i - 1, j - 1;
      Tail(Apply(init, a, i - 1).value, [c], b, j);
    case Insert(c) =>
      i', j' := i, j - 1;
      Tail(Apply(init, a, i).value, [c], b, j);
    case Delete =>
      i', j' := i - 1, j;
    case Swap =>
      Tail(Apply(init, a, i - 2).value, [a[i - 1], a[i - 2]], b, j);
      i', j' := i - 2, j - 2;
  }

  /** No script that turns `a` into `b` costs less than the distance. */
  lemma {:induction false} DistanceIsLeast(script: seq<Edit>, a: string, b: string, i: nat, j: nat)
    requires i <= |a| && j <= |b| && Apply(script, a, i) == Some(b[..j])
    ensures Distance(a, b, i, j) <= Cost(script)
    decreases |script|
  {
    if script != [] {
      var i', j' := LastStep(script, a, b, i, j);
      DistanceIsLeast(script[..|script| - 1], a, b, i', j');
      DistanceBounded(a, b, i, j);
    }
  }

  /** Where the rest of a pair of prefixes stands once its last edit is taken off. */
  ghost predicate Leaves(e: Edit, a: string, b: string, i: nat, j: nat, i': nat, j': nat)
    requires i <= |a| && j <= |b|
  {
    match e
    case Keep => i' == i - 1 && j' == j - 1 && a[i - 1] == b[j - 1]
    case Substitute(c) => i' == i - 1 && j' == j - 1 && c == b[j - 1]
    case Insert(c) => i' == i && j' == j - 1 && c == b[j - 1]
    case Delete => i' == i - 1 && j' == j
    case Swap => i' == i - 2 && j' == j - 2 && Swapped(a, b, i, j)
  }

  /** The edit the recurrence chooses, and where it leaves the rest. */
  lemma LastEdit(a: string, b: string, i: nat, j: nat) returns (e: Edit, i': nat, j': nat)
    requires i <= |a| && j <= |b| && 0 < i + j
    ensures i' <= i && j' <= j && i' + j' < i + j
    ensures Distance(a, b, i, j) == Distance(a, b, i', j') + if e == Keep then 0 else 1
    ensures Leaves(e, a, b, i, j, i', j')
  {
    if i == 0 {
      e, i', j' := Insert(b[j - 1]), i, j - 1;
    } else if j == 0 {
      e, i', j' := Delete, i - 1, j;
    } else {
      var d := Distance(a, b, i, j);
      if Swapped(a, b, i, j) && d == Distance(a, b, i - 2, j - 2) + 1 {
        e, i', j' := Swap, i - 2, j - 2;
      } else if d == Distance(a, b, i - 1, j) + 1 {
        e, i', j' := Delete, i - 1, j;
      } else if d == Distance(a, b, i, j - 1) + 1 {
        e, i', j' := Insert(b[j - 1]), i, j - 1;
      } else {
        e, i', j' := if a[i - 1] == b[j - 1] then Keep else Substitute(b[j - 1]), i - 1, j - 1;
      }
    }
  }

  lemma OneMoreEdit(init: seq<Edit>, e: Edit, a: string, b: string, i: nat, j: nat, i': nat, j': nat)
    requires i <= |a| && j <= |b| && Leaves(e, a, b, i, j, i', j') && Apply(init, a, i') == Some(b[..j'])
    ensures Apply(init + [e], a, i) == Some(b[..j])
  {
    Extend(init, e);
    assert b[..j'] + b[j'..j] == b[..j];
    if e == Swap {
      assert b[j'..j] == [a[i - 1], a[i - 2]];
    } else if j' < j {
      assert b[j'..j] == [b[j - 1]];
    }
  }

  /** Some script costs exactly the distance. */
  lemma {:induction false} DistanceIsReached(a: string, b: string, i: nat, j: nat) returns (script: seq<Edit>)
    requires i <= |a| && j <= |b|
    ensures Apply(script, a, i) == Some(b[..j]) && Cost(script) == Distance(a, b, i, j)
    decreases i + j
  {
    if i == 0 && j == 0 {
      script := [];
    } else {
      var e, i', j' := LastEdit(a, b, i, j);
      var init := DistanceIsReached(a, b, i', j');
      script := init + [e];
      Extend(init, e);
      OneMoreEdit(init, e, a, b, i, j, i', j');
    }
  }

  /** Every script can be undone at the same cost. */
  lemma {:induction false} Undone(script: seq<Edit>, a: string, b: string, i: nat, j: nat) returns (undo: seq<Edit>)
    requires i <= |a| && j <= |b| && Apply(script, a, i) == Some(b[..j])
    ensures Apply(undo, b, j) == Some(a[..i]) && Cost(undo) == Cost(script)
    decreases |script|
  {
    if script == [] {
      undo := [];
    } else {
      var i', j' := LastStep(script, a, b, i, j);
      var init := Undone(script[..|script| - 1], a, b, i', j');
      var e := match script[|script| - 1]
        case Keep => Keep
        case Substitute(_) => Substitute(a[i - 1])
        case Insert(_) => Delete
        case Delete => Insert(a[i - 1])
        case Swap => Swap;
      undo := init + [e];
      Extend(init, e);
      assert a[..i'] + a[i'..i] == a[..i];
      if e == Swap {
        assert a[i'..i] == [b[j - 1], b[j - 2]];
      } else if i' < i {
        assert a[i'..i] == [a[i - 1]];
      }
    }
  }

  lemma NotFarther(a: string, b: string)
    ensures Distance(b, a, |b|, |a|) <= Distance(a, b, |a|, |b|)
  {
    var script := DistanceIsReached(a, b, |a|, |b|);
    var undo := Undone(script, a, b, |a|, |b|);
    DistanceIsLeast(undo, b, a, |b|, |a|);
  }

  lemma DistanceSymmetric(a: string, b: string)
    ensures Distance(a, b, |a|, |b|) == Distance(b, a, |b|, |a|)
  {
    NotFarther(a, b);
    NotFarther(b, a);
  }

  lemma {:induction false} ZeroOnlyOnEqual(a: string, b: string, i: nat, j: nat)
    requires i <= |a| && j <= |b|
    ensures Distance(a, b, i, j) == 0 <==> a[..i] == b[..j]
    decreases i + j
  {
    if 0 < i && 0 < j {
      ZeroOnlyOnEqual(a, b, i - 1, j - 1);
      assert a[..i] == a[..i - 1] + [a[i - 1]] && b[..j] == b[..j - 1] + [b[j - 1]];
    }
  }

  /** No byte is edited twice, so two steps can cost less than one: "ca" to "ac" to "abc". */
  lemma TwoStepsCostLess()
    ensures Distance("ca", "ac", 2, 2) == 1 && Distance("ac", "abc", 2, 3) == 1 && Distance("ca", "abc", 2, 3) == 3
  {
    assert Distance("ca", "ac", 1, 1) == 1 && Distance("ca", "ac", 1, 2) == 1 && Distance("ca", "ac", 2, 1) == 1;
    assert Distance("ac", "abc", 1, 1) == 0 && Distance("ac", "abc", 1, 2) == 1;
    var a, b := "ca", "abc";
    assert Distance(a, b, 1, 1) == 1 && Distance(a, b, 1, 2) == 2 && Distance(a, b, 1, 3) == 2;
    assert Distance(a, b, 2, 1) == 1 && Distance(a, b, 2, 2) == 2;
  }

  // ---- the program ----

  /** `want` holds the distances of all pairs of prefixes. */
  ghost predicate Tabled(want: seq<seq<nat>>, a: string, b: string) {
    && |want| == |a| + 1
    && (forall p | 0 <= p <= |a| :: |want[p]| == |b| + 1)
    && (forall p, q {:trigger Distance(a, b, p, q)} | 0 <= p <= |a| && 0 <= q <= |b| ::
          want[p][q] == Distance(a, b, p, q))
  }

  lemma WantedCell(want: seq<seq<nat>>, a: string, b: string, i: nat, j: nat)
    requires Tabled(want, a, b) && 0 < i <= |a| && 0 < j <= |b|
    ensures want[i][j] == Cell(want[i - 1][j], want[i][j - 1], want[i - 1][j - 1], a[i - 1] == b[j - 1],
                               if Swapped(a, b, i, j) then Some(want[i - 2][j - 2]) else None)
  {
    assert want[i][j] == Distance(a, b, i, j) && want[i - 1][j - 1] == Distance(a, b, i - 1, j - 1);
    assert want[i - 1][j] == Distance(a, b, i - 1, j) && want[i][j - 1] == Distance(a, b, i, j - 1);
    assert Swapped(a, b, i, j) ==> want[i - 2][j - 2] == Distance(a, b, i - 2, j - 2);
  }

  /** The loop's body: the least of what the neighbours allow. */
  method CellFrom(dp: array2<nat>, a: string, b: string, i: nat, j: nat, ghost want: seq<seq<nat>>) returns (v: nat)
    requires Tabled(want, a, b)
    requires 0 < i <= |a| && 0 < j <= |b| && dp.Length0 == |a| + 1 && dp.Length1 == |b| + 1
    requires dp[i - 1, j] == want[i - 1][j] && dp[i, j - 1] == want[i][j - 1]
    requires dp[i - 1, j - 1] == want[i - 1][j - 1]
    requires 1 < i && 1 < j ==> dp[i - 2, j - 2] == want[i - 2][j - 2]
    ensures v == want[i][j]
  {
    var cost := 1;
    if a[i - 1] == b[j - 1] {
      cost := 0;
    }
    v := dp[i - 1, j] + 1;
    if dp[i, j - 1] + 1 < v {
      v := dp[i, j - 1] + 1;
    }
    if dp[i - 1, j - 1] + cost < v {
      v := dp[i - 1, j - 1] + cost;
    }
    if i > 1 && j > 1 && a[i - 1] == b[j - 2] && a[i - 2] == b[j - 1] {
      if dp[i - 2, j - 2] + 1 < v {
        v := dp[i - 2, j - 2] + 1;
      }
    }
    WantedCell(want, a, b, i, j);
  }

  /** The inner loop: row `i` from the rows above it. */
  method FillRow(dp: array2<nat>, a: string, b: string, i: nat, ghost want: seq<seq<nat>>)
    requires Tabled(want, a, b)
    requires 0 < i <= |a| && dp.Length0 == |a| + 1 && dp.Length1 == |b| + 1
    requires forall p, q | 0 <= p < i && 0 <= q <= |b| :: dp[p, q] == want[p][q]
    requires forall p | 0 <= p <= |a| :: dp[p, 0] == want[p][0]
    modifies dp
    ensures forall p, q | 0 <= p <= i && 0 <= q <= |b| :: dp[p, q] == want[p][q]
    ensures forall p | 0 <= p <= |a| :: dp[p, 0] == want[p][0]
  {
    for j := 1 to |b| + 1
      invariant forall p | 0 <= p <= |a| :: dp[p, 0] == want[p][0]
      invariant forall p, q | 0 <= p <= i && 0 <= q <= |b| && (p < i || q < j) :: dp[p, q] == want[p][q]
    {
      var v := CellFrom(dp, a, b, i, j, want);
      dp[i, j] := v;
    }
  }

  lemma WantedEdges(want: seq<seq<nat>>, a: string, b: string)
    requires Tabled(want, a, b)
    ensures forall p | 0 <= p <= |a| :: want[p][0] == p
    ensures forall q | 0 <= q <= |b| :: want[0][q] == q
    ensures want[|a|][|b|] == Distance(a, b, |a|, |b|)
  {
    forall p | 0 <= p <= |a| ensures want[p][0] == p {
      assert want[p][0] == Distance(a, b, p, 0);
    }
    forall q | 0 <= q <= |b| ensures want[0][q] == q {
      assert want[0][q] == Distance(a, b, 0, q);
    }
  }

  /** The table, row by row. */
  method FillTable(a: string, b: string, ghost want: seq<seq<nat>>) returns (d: nat)
    requires Tabled(want, a, b)
    ensures d == want[|a|][|b|]
  {
    WantedEdges(want, a, b);
    var la, lb := |a|, |b|;
    var dp := new nat[la + 1, lb + 1];
    for i := 0 to la + 1
      invariant forall p | 0 <= p < i :: dp[p, 0] == want[p][0]
    {
      dp[i, 0] := i;
    }
    for j := 0 to lb + 1
      invariant forall p | 0 <= p <= la :: dp[p, 0] == want[p][0]
      invariant forall q | 0 <= q < j :: dp[0, q] == want[0][q]
    {
      dp[0, j] := j;
    }
    for i := 1 to la + 1
      invariant forall p | 0 <= p <= la :: dp[p, 0] == want[p][0]
      invariant forall p, q | 0 <= p < i && 0 <= q <= lb :: dp[p, q] == want[p][q]
    {
      FillRow(dp, a, b, i, want);
    }
    return dp[la, lb];
  }

  ghost function Table(a: string, b: string): (want: seq<seq<nat>>)
    ensures Tabled(want, a, b)
  {
    seq(|a| + 1, p requires 0 <= p <= |a| => seq(|b| + 1, q requires 0 <= q <= |b| => Distance(a, b, p, q)))
  }

  method Levenshtein(a: string, b: string) returns (d: nat)
    ensures d == Distance(a, b, |a|, |b|)
  {
    ZeroOnlyOnEqual(a, b, |a|, |b|);
    assert a[..|a|] == a && b[..|b|] == b;
    if a == b {
      return 0;
    }
    if |a| == 0 {
      return |b|;
    }
    if |b| == 0 {
      return |a|;
    }
    WantedEdges(Table(a, b), a, b);
    d := FillTable(a, b, Table(a, b));
  }

  ghost function To(input: string, c: string): nat {
    Distance(input, c, |input|, |c|)
  }

  ghost predicate FirstPrefix(input: string, candidates: seq<string>, k: int) {
    && 0 <= k < |candidates| && input != "" && input <= candidates[k]
    && forall m | 0 <= m < k :: !(input <= candidates[m])
  }

  ghost predicate FirstClosest(input: string, candidates: seq<string>, k: int) {
    && 0 <= k < |candidates| && To(input, candidates[k]) <= 2
    && (forall m | 0 <= m < |candidates| :: To(input, candidates[k]) <= To(input, candidates[m]))
    && (forall m | 0 <= m < k :: To(input, candidates[k]) < To(input, candidates[m]))
  }

  /** The first candidate that starts with the input, or the first closest within two edits, or none. */
  method Suggest(input: string, candidates: seq<string>) returns (best: string)
    ensures forall k | FirstPrefix(input, candidates, k) :: best == candidates[k]
    ensures (forall k :: !FirstPrefix(input, candidates, k)) ==>
      forall k | FirstClosest(input, candidates, k) :: best == candidates[k]
    ensures (forall k :: !FirstPrefix(input, candidates, k) && !FirstClosest(input, candidates, k)) ==> best == ""
  {
    best := "";
    var bestD := 3;
    ghost var at := -1;
    for k := 0 to |candidates|
      invariant forall m | 0 <= m < k :: !(input != "" && input <= candidates[m])
      invariant bestD <= 3 && -1 <= at < k
      invariant forall m | 0 <= m < k :: bestD <= To(input, candidates[m])
      invariant at < 0 ==> best == "" && bestD == 3
      invariant 0 <= at ==> best == candidates[at] && bestD == To(input, best) < 3
      invariant forall m | 0 <= m < at :: bestD < To(input, candidates[m])
    {
      var c := candidates[k];
      if input != "" && input <= c {
        assert FirstPrefix(input, candidates, k);
        return c;
      }
      var d := Levenshtein(input, c);
      if d < bestD {
        best, bestD, at := c, d, k;
      }
    }
    if 0 <= at {
      assert FirstClosest(input, candidates, at);
    }
  }
}
