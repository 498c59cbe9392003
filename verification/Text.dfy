/** Byte strings, as the record files and the log writer use them. A `char` stands for one byte. */
module Text {

  datatype Option<+T> = None | Some(value: T)

  predicate Lacks(s: string, c: char) {
    forall i | 0 <= i < |s| :: s[i] != c
  }

  predicate NoNewline(s: string) {
    Lacks(s, '\n')
  }

  function IndexFrom(s: string, c: char, k: nat): (i: int)
    requires k <= |s|
    ensures i < 0 ==> i == -1 && forall j | k <= j < |s| :: s[j] != c
    ensures 0 <= i ==> k <= i < |s| && s[i] == c && forall j | k <= j < i :: s[j] != c
    decreases |s| - k
  {
    if k == |s| then -1 else if s[k] == c then k else IndexFrom(s, c, k + 1)
  }

  /** The position of the first `c`, or -1. */
  function IndexOf(s: string, c: char): (i: int)
    ensures -1 <= i < |s|
    ensures i < 0 <==> Lacks(s, c)
    ensures 0 <= i ==> s[i] == c && forall j | 0 <= j < i :: s[j] != c
  {
    IndexFrom(s, c, 0)
  }

  /** The position of the last `c` before `k`, or -1. */
  function LastIndexBefore(s: string, c: char, k: nat): (i: int)
    requires k <= |s|
    ensures -1 <= i < k
    ensures forall j | i < j < k :: s[j] != c
    ensures 0 <= i ==> s[i] == c
  {
    if k == 0 then -1 else if s[k - 1] == c then k - 1 else LastIndexBefore(s, c, k - 1)
  }

  /** Splitting off a head that lacks `c`: the first `c` after it is the one given. */
  lemma IndexOfHead(head: string, c: char, rest: string)
    requires Lacks(head, c)
    ensures IndexOf(head + [c] + rest, c) == |head|
  {
    var s := head + [c] + rest;
    assert s[|head|] == c;
    assert forall j | 0 <= j < |head| :: s[j] == head[j];
  }

  /** The longest prefix of a file that ends in a newline: what a tail repair keeps. */
  function Complete(s: string): (r: string) {
    s[..LastIndexBefore(s, '\n', |s|) + 1]
  }

  /** `Complete` is the only prefix that ends in a newline and leaves no newline behind. */
  lemma CompleteUnique(s: string, k: nat)
    requires k <= |s| && (k == 0 || s[k - 1] == '\n') && forall j | k <= j < |s| :: s[j] != '\n'
    ensures Complete(s) == s[..k]
  {
  }

  predicate AsciiSpace(c: char) {
    c == ' ' || '\t' <= c <= '\r'
  }

  /** The UTF-8 bytes of U+0085 or U+00A0. */
  predicate Space2(a: char, b: char) {
    a == '\U{C2}' && (b == '\U{85}' || b == '\U{A0}')
  }

  /** The UTF-8 bytes of any other space beyond ASCII. */
  predicate Space3(a: char, b: char, c: char) {
    || (a == '\U{E1}' && b == '\U{9A}' && c == '\U{80}')
    || (a == '\U{E2}' && b == '\U{80}' && '\U{80}' <= c <= '\U{8A}')
    || (a == '\U{E2}' && b == '\U{80}' && (c == '\U{A8}' || c == '\U{A9}' || c == '\U{AF}'))
    || (a == '\U{E2}' && b == '\U{81}' && c == '\U{9F}')
    || (a == '\U{E3}' && b == '\U{80}' && c == '\U{80}')
  }

  /** The bytes of the space `s` starts with, 0 when it starts with none. */
  function LeadingSpace(s: string): (n: nat)
    ensures n <= |s|
  {
    if s == "" then 0
    else if AsciiSpace(s[0]) then 1
    else if |s| >= 2 && Space2(s[0], s[1]) then 2
    else if |s| >= 3 && Space3(s[0], s[1], s[2]) then 3
    else 0
  }

  function TrailingSpace(s: string): (n: nat)
    ensures n <= |s|
  {
    var k := |s|;
    if s == "" then 0
    else if AsciiSpace(s[k - 1]) then 1
    else if k >= 2 && Space2(s[k - 2], s[k - 1]) then 2
    else if k >= 3 && Space3(s[k - 3], s[k - 2], s[k - 1]) then 3
    else 0
  }

  function TrimLeft(s: string): string {
    if LeadingSpace(s) == 0 then s else TrimLeft(s[LeadingSpace(s)..])
  }

  function TrimRight(s: string): string {
    if TrailingSpace(s) == 0 then s else TrimRight(s[..|s| - TrailingSpace(s)])
  }

  function Trim(s: string): string {
    TrimRight(TrimLeft(s))
  }

  predicate SpacesAhead(s: string) {
    s == "" || (LeadingSpace(s) > 0 && SpacesAhead(s[LeadingSpace(s)..]))
  }

  predicate SpacesBehind(s: string) {
    s == "" || (TrailingSpace(s) > 0 && SpacesBehind(s[..|s| - TrailingSpace(s)]))
  }

  /** The space at the start is the same before any other text. */
  lemma BeginsAlike(s: string, rest: string, k: nat)
    requires k == LeadingSpace(s)
    ensures k > 0 ==> LeadingSpace(s[..k] + rest) == k
  {
    var a := s[..k] + rest;
    assert forall i | 0 <= i < k :: a[i] == s[i];
  }

  lemma Rejoined(s: string, n: nat, x: string, y: string)
    requires n <= |s| && s[n..] == x + y
    ensures s == s[..n] + x + y
  {
    assert s == s[..n] + s[n..];
  }

  lemma RejoinedBehind(s: string, k: nat, x: string, y: string)
    requires k <= |s| && s[..k] == x + y
    ensures s == x + (y + s[k..])
  {
    assert s == s[..k] + s[k..];
  }

  lemma {:induction false} TrimLeftSplits(s: string) returns (a: string)
    ensures s == a + TrimLeft(s) && SpacesAhead(a) && LeadingSpace(TrimLeft(s)) == 0
    decreases |s|
  {
    var n := LeadingSpace(s);
    a := "";
    if n > 0 {
      var rest := TrimLeftSplits(s[n..]);
      a := s[..n] + rest;
      BeginsAlike(s, rest, n);
      Rejoined(s, n, rest, TrimLeft(s[n..]));
      assert a[n..] == rest;
    }
  }

  /** The space at the end is the same behind any other text. */
  lemma EndsAlike(s: string, rest: string, k: nat)
    requires k <= |s| && k == |s| - TrailingSpace(s)
    ensures TrailingSpace(s) > 0 ==> TrailingSpace(rest + s[k..]) == TrailingSpace(s)
  {
    var b := rest + s[k..];
    assert forall i | k <= i < |s| :: b[|rest| + i - k] == s[i];
  }

  lemma {:induction false} TrimRightSplits(s: string) returns (b: string)
    ensures s == TrimRight(s) + b && SpacesBehind(b) && TrailingSpace(TrimRight(s)) == 0
    decreases |s|
  {
    var n := TrailingSpace(s);
    b := "";
    if n > 0 {
      var k := |s| - n;
      var rest := TrimRightSplits(s[..k]);
      b := rest + s[k..];
      EndsAlike(s, rest, k);
      RejoinedBehind(s, k, TrimRight(s[..k]), rest);
      assert b[..|b| - n] == rest;
    }
  }

  /** What starts with no space starts with none when it is cut short. */
  lemma StartsAlike(s: string, b: string)
    requires LeadingSpace(s + b) == 0
    ensures LeadingSpace(s) == 0
  {
    assert forall i | 0 <= i < |s| :: (s + b)[i] == s[i];
  }

  lemma Bracketed(s: string, a: string, t: string, m: string, b: string)
    requires s == a + t && t == m + b && LeadingSpace(t) == 0
    ensures s == a + m + b && LeadingSpace(m) == 0
  {
    StartsAlike(m, b);
  }

  /** Trimming takes spaces off both ends, all of them and nothing else. */
  lemma TrimSplits(s: string) returns (a: string, b: string)
    ensures s == a + Trim(s) + b && SpacesAhead(a) && SpacesBehind(b)
    ensures LeadingSpace(Trim(s)) == 0 && TrailingSpace(Trim(s)) == 0
  {
    var t := TrimLeft(s);
    a := TrimLeftSplits(s);
    b := TrimRightSplits(t);
    Bracketed(s, a, t, TrimRight(t), b);
  }

  // ---- decimal numbers ----

  function Digit(d: nat): char
    requires d < 10
  {
    '0' + d as char
  }

  function Itoa(n: nat): (s: string)
    ensures s != [] && forall i | 0 <= i < |s| :: '0' <= s[i] <= '9'
  {
    if n < 10 then [Digit(n)] else Itoa(n / 10) + [Digit(n % 10)]
  }

  /** The value of a run of decimal digits. */
  function ParseDigits(s: string): Option<nat> {
    if s == [] || !('0' <= s[|s| - 1] <= '9') then None
    else
      var d := (s[|s| - 1] - '0') as nat;
      if |s| == 1 then Some(d)
      else
        match ParseDigits(s[..|s| - 1])
        case None => None
        case Some(m) => Some(10 * m + d)
  }

  lemma {:induction false} ParseDigitsItoa(n: nat)
    ensures ParseDigits(Itoa(n)) == Some(n)
  {
    var s := Itoa(n);
    assert s[|s| - 1] == Digit(n % 10);
    assert (s[|s| - 1] - '0') as nat == n % 10;
    if n >= 10 {
      ParseDigitsItoa(n / 10);
      assert s[..|s| - 1] == Itoa(n / 10);
    }
  }

  /** strconv.Atoi, without its machine-word range. */
  function Atoi(s: string): Option<int> {
    if s != [] && s[0] == '-' then
      match ParseDigits(s[1..])
      case None => None
      case Some(m) => Some(-(m as int))
    else if s != [] && s[0] == '+' then
      match ParseDigits(s[1..])
      case None => None
      case Some(m) => Some(m as int)
    else
      match ParseDigits(s)
      case None => None
      case Some(m) => Some(m as int)
  }
}
