/** Facts about sequences shared by the other modules. */
module Sequences {

  lemma Regroup<T>(a: seq<T>, b: seq<T>, c: seq<T>)
    ensures (a + b) + c == a + (b + c) && a + [] == a
  {
  }

  lemma AppendLast<T>(a: seq<T>, b: seq<T>)
    requires b != []
    ensures a + b == a + b[..|b| - 1] + [b[|b| - 1]]
  {
  }

  lemma PrefixIsSlice<T>(p: seq<T>, l: seq<T>)
    requires p <= l
    ensures p == l[..|p|]
  {
  }
}
