/**
 Decoded JSON values and the text encoding/json gives them: compact, object keys in order, strings
 escaped as for HTML. The text determines the value, wherever it stands in a larger one.
 */
module JsonText {
  import opened Text

  /** A number is carried as its shortest text, which is what the encoder prints. */
  datatype Json =
    | Null
    | Bool(b: bool)
    | Num(text: string)
    | Str(s: string)
    | Arr(items: seq<Json>)
    | Obj(fields: map<string, Json>)

  predicate NumChar(c: char) {
    '0' <= c <= '9' || c == '-' || c == '+' || c == '.' || c == 'e'
  }

  predicate NumText(t: string) {
    t != "" && ('0' <= t[0] <= '9' || t[0] == '-') && forall i | 0 <= i < |t| :: NumChar(t[i])
  }

  /** Every number in the value has the text of a number. */
  ghost predicate WellFormed(v: Json)
    decreases v
  {
    match v
    case Num(t) => NumText(t)
    case Arr(a) => forall i | 0 <= i < |a| :: WellFormed(a[i])
    case Obj(m) => forall k | k in m :: WellFormed(m[k])
    case _ => true
  }

  // ---- strings ----

  function Hex(d: nat): char
    requires d < 16
  {
    if d < 10 then '0' + d as char else 'a' + (d - 10) as char
  }

  function HexValue(c: char): nat {
    if '0' <= c <= '9' then (c - '0') as nat else if 'a' <= c <= 'f' then (c - 'a') as nat + 10 else 0
  }

  /** The letter of a two-character escape, or a space when the character has none. */
  function ShortEscape(c: char): char {
    match c
    case '"' => '"'
    case '\\' => '\\'
    case '\U{08}' => 'b'
    case '\U{0C}' => 'f'
    case '\n' => 'n'
    case '\r' => 'r'
    case '\t' => 't'
    case _ => ' '
  }

  function EscapeChar(c: char): string {
    if ShortEscape(c) != ' ' then ['\\', ShortEscape(c)]
    else if c < ' ' || c == '<' || c == '>' || c == '&' then
      ['\\', 'u', '0', '0', Hex(c as nat / 16), Hex(c as nat % 16)]
    else if c == '\U{2028}' || c == '\U{2029}' then ['\\', 'u', '2', '0', '2', Hex(c as nat % 16)]
    else [c]
  }

  /** The escaped characters of `s` and what follows them. */
  function PutEscaped(s: string, rest: string): string {
    if s == "" then rest else EscapeChar(s[0]) + PutEscaped(s[1..], rest)
  }

  /** The character an escaped text starts with; the left inverse of `EscapeChar`. */
  function FirstChar(t: string): char {
    if t == "" then ' '
    else if t[0] != '\\' || |t| < 2 then t[0]
    else
      match t[1]
      case 'b' => '\U{08}'
      case 'f' => '\U{0C}'
      case 'n' => '\n'
      case 'r' => '\r'
      case 't' => '\t'
      case 'u' =>
        if |t| < 6 then ' '
        else if t[2] == '2' then (if t[5] == '8' then '\U{2028}' else '\U{2029}')
        else (HexValue(t[4]) * 16 + HexValue(t[5])) as char
      case _ => t[1]
  }

  lemma HexInverse(d: nat)
    requires d < 16
    ensures HexValue(Hex(d)) == d
  {
  }

  lemma FirstCharEscaped(c: char, rest: string)
    ensures FirstChar(EscapeChar(c) + rest) == c
  {
    var t := EscapeChar(c) + rest;
    assert forall i | 0 <= i < |EscapeChar(c)| :: t[i] == EscapeChar(c)[i];
    if c < ' ' || c == '<' || c == '>' || c == '&' {
      HexInverse(c as nat / 16);
      HexInverse(c as nat % 16);
    }
  }

  lemma EscapeStart(s: string, rest: string)
    requires s != ""
    ensures PutEscaped(s, rest) != "" && PutEscaped(s, rest)[0] != '"'
  {
    assert EscapeChar(s[0]) != "" && EscapeChar(s[0])[0] != '"';
  }

  lemma SameTail(head: string, a: string, b: string)
    requires head + a == head + b
    ensures a == b
  {
    assert a == (head + a)[|head|..] && b == (head + b)[|head|..];
  }

  /** A string ends where its closing quote is: the escaped text gives it back. */
  lemma {:induction false} EscapedUnique(s: string, t: string, r: string, q: string)
    requires PutEscaped(s, "\"" + r) == PutEscaped(t, "\"" + q)
    ensures s == t && r == q
    decreases |s|
  {
    if s == "" || t == "" {
      if s != "" {
        EscapeStart(s, "\"" + r);
      }
      if t != "" {
        EscapeStart(t, "\"" + q);
      }
      assert ("\"" + r)[1..] == r && ("\"" + q)[1..] == q;
    } else {
      var a, b := PutEscaped(s[1..], "\"" + r), PutEscaped(t[1..], "\"" + q);
      FirstCharEscaped(s[0], a);
      FirstCharEscaped(t[0], b);
      SameTail(EscapeChar(s[0]), a, b);
      EscapedUnique(s[1..], t[1..], r, q);
    }
  }

  // ---- object keys ----

  /** The byte-wise order of strings; on UTF-8 it is the order of their characters. */
  predicate Before(a: string, b: string) {
    b != "" && (a == "" || a[0] < b[0] || (a[0] == b[0] && Before(a[1..], b[1..])))
  }

  ghost predicate Ascending(keys: seq<string>) {
    forall i, j | 0 <= i < j < |keys| :: Before(keys[i], keys[j])
  }

  lemma {:induction false} Irreflexive(a: string)
    ensures !Before(a, a)
  {
    if a != "" {
      Irreflexive(a[1..]);
    }
  }

  lemma {:induction false} BeforeTotal(a: string, b: string)
    ensures a == b || Before(a, b) || Before(b, a)
    ensures !(Before(a, b) && Before(b, a)) && !Before(a, a)
  {
    if a != "" && b != "" {
      BeforeTotal(a[1..], b[1..]);
      assert a == [a[0]] + a[1..] && b == [b[0]] + b[1..];
    }
    Irreflexive(a);
  }

  lemma {:induction false} BeforeTransitive(a: string, b: string, c: string)
    requires Before(a, b) && Before(b, c)
    ensures Before(a, c)
  {
    if a != "" && a[0] == b[0] == c[0] {
      BeforeTransitive(a[1..], b[1..], c[1..]);
    }
  }

  ghost predicate IsLeast(k: string, keys: set<string>) {
    k in keys && forall x <- keys | x != k :: Before(k, x)
  }

  lemma {:induction false} LeastExists(keys: set<string>) returns (k: string)
    requires keys != {}
    ensures IsLeast(k, keys)
  {
    k :| k in keys;
    var others := keys - {k};
    assert forall x <- keys | x != k :: x in others;
    if others != {} {
      var m := LeastExists(others);
      BeforeTotal(k, m);
      if Before(m, k) {
        k := m;
      } else {
        forall x <- keys | x != k ensures Before(k, x) {
          if x != m {
            BeforeTransitive(k, m, x);
          }
        }
      }
    }
  }

  lemma LeastOf(keys: set<string>)
    requires keys != {}
    ensures exists k :: IsLeast(k, keys)
  {
    var k := LeastExists(keys);
  }

  /** The keys in order. */
  ghost function Sorted(keys: set<string>): (r: seq<string>)
    ensures forall k :: k in r <==> k in keys
  {
    if keys == {} then []
    else
      LeastOf(keys);
      var k :| IsLeast(k, keys);
      [k] + Sorted(keys - {k})
  }

  lemma AscendingCons(k: string, t: seq<string>)
    requires Ascending(t) && forall j | 0 <= j < |t| :: Before(k, t[j])
    ensures Ascending([k] + t)
  {
    var r := [k] + t;
    assert forall j | 1 <= j < |r| :: r[j] == t[j - 1];
  }

  lemma {:induction false} SortedAscends(keys: set<string>)
    ensures Ascending(Sorted(keys))
  {
    if keys != {} {
      var k := Sorted(keys)[0];
      var t := Sorted(keys - {k});
      SortedAscends(keys - {k});
      assert forall j | 0 <= j < |t| :: t[j] in t;
      AscendingCons(k, t);
    }
  }

  lemma TailKeys(r: seq<string>, keys: set<string>)
    requires r != [] && Ascending(r) && forall k :: k in r <==> k in keys
    ensures Ascending(r[1..]) && forall x :: x in r[1..] <==> x in keys - {r[0]}
  {
    Irreflexive(r[0]);
    assert r == [r[0]] + r[1..];
    forall x | x in r[1..] ensures Before(r[0], x) {
      var j :| 1 <= j < |r| && r[j] == x;
    }
  }

  /** There is one ascending order of a set of keys: sorting gives it however the map was walked. */
  lemma {:induction false} SortedUnique(r: seq<string>, keys: set<string>)
    requires Ascending(r) && forall k :: k in r <==> k in keys
    ensures r == Sorted(keys)
    decreases keys
  {
    if r == [] {
      assert keys == {};
    } else {
      assert r[0] in keys;
      var k := Sorted(keys)[0];
      assert IsLeast(k, keys);
      var p :| 0 <= p < |r| && r[p] == k;
      BeforeTotal(r[0], k);
      assert r[0] == k;
      TailKeys(r, keys);
      SortedUnique(r[1..], keys - {k});
    }
  }

  // ---- values ----

  /** The text of a value and what follows it. */
  ghost function Put(v: Json, rest: string): string
    decreases v, 1, 0
  {
    match v
    case Null => "null" + rest
    case Bool(b) => (if b then "true" else "false") + rest
    case Num(t) => t + rest
    case Str(s) => "\"" + PutEscaped(s, "\"" + rest)
    case Arr(a) => "[" + PutItems(v, 0, rest)
    case Obj(m) => "{" + PutFields(v, Sorted(m.Keys), 0, rest)
  }

  function Comma(i: nat): string {
    if i == 0 then "" else ","
  }

  ghost function PutItems(v: Json, i: nat, rest: string): string
    requires v.Arr? && i <= |v.items|
    decreases v, 0, |v.items| - i
  {
    if i == |v.items| then "]" + rest
    else Comma(i) + Put(v.items[i], PutItems(v, i + 1, rest))
  }

  ghost function PutFields(v: Json, keys: seq<string>, i: nat, rest: string): string
    requires v.Obj? && i <= |keys| && forall k <- keys :: k in v.fields
    decreases v, 0, |keys| - i
  {
    if i == |keys| then "}" + rest
    else
      Comma(i) + ("\"" + PutEscaped(keys[i], "\"" + (":" + Put(v.fields[keys[i]], PutFields(v, keys, i + 1, rest)))))
  }

  /** What json.Marshal returns. */
  ghost function Encode(v: Json): string {
    Put(v, "")
  }

  // ---- the text determines the value ----

  /** Nothing, or what can follow a value inside another. */
  predicate Delimited(rest: string) {
    rest == "" || rest[0] == ',' || rest[0] == ']' || rest[0] == '}'
  }

  /** What a value's text starts with. */
  ghost predicate StartsAs(v: Json, c: char) {
    match v
    case Null => c == 'n'
    case Bool(b) => c == if b then 't' else 'f'
    case Num(_) => '0' <= c <= '9' || c == '-'
    case Str(_) => c == '"'
    case Arr(_) => c == '['
    case Obj(_) => c == '{'
  }

  lemma PutStarts(v: Json, rest: string)
    requires WellFormed(v)
    ensures Put(v, rest) != "" && StartsAs(v, Put(v, rest)[0])
  {
  }

  lemma ItemsDelimited(v: Json, i: nat, rest: string)
    requires v.Arr? && 0 < i <= |v.items|
    ensures Delimited(PutItems(v, i, rest))
  {
  }

  lemma FieldsDelimited(v: Json, keys: seq<string>, i: nat, rest: string)
    requires v.Obj? && 0 < i <= |keys| && forall k <- keys :: k in v.fields
    ensures Delimited(PutFields(v, keys, i, rest))
  {
  }

  lemma NumUnique(s: string, t: string, r: string, q: string)
    requires NumText(s) && NumText(t) && Delimited(r) && Delimited(q) && s + r == t + q
    ensures s == t && r == q
  {
    var whole := s + r;
    assert whole == t + q;
    assert forall i | 0 <= i < |s| :: whole[i] == s[i];
    assert forall i | 0 <= i < |t| :: whole[i] == t[i];
    assert |s| < |whole| ==> whole[|s|] == r[0];
    assert |t| < |whole| ==> whole[|t|] == q[0];
    assert |s| == |t|;
    assert s == whole[..|s|] && t == whole[..|t|] && r == whole[|s|..] && q == whole[|t|..];
  }

  lemma SameFields(m: map<string, Json>, n: map<string, Json>, ks: seq<string>, ls: seq<string>)
    requires (forall k :: k in ks <==> k in m) && (forall k :: k in ls <==> k in n)
    requires |ks| == |ls| && forall j | 0 <= j < |ks| :: ks[j] == ls[j] && m[ks[j]] == n[ls[j]]
    ensures m == n
  {
    assert ks == ls;
    forall k | k in m ensures k in n && m[k] == n[k] {
      assert k in ks;
    }
    assert forall k | k in n :: k in ls;
  }

  /** Equal texts, each ended by a delimiter, are the texts of equal values. */
  lemma {:induction false} PutUnique(v: Json, w: Json, r: string, q: string)
    requires WellFormed(v) && WellFormed(w) && Delimited(r) && Delimited(q) && Put(v, r) == Put(w, q)
    ensures v == w && r == q
    decreases v, 1, 0
  {
    PutStarts(v, r);
    PutStarts(w, q);
    match v
    case Null =>
      SameTail("null", r, q);
    case Bool(b) =>
      SameTail(if b then "true" else "false", r, q);
    case Num(t) =>
      NumUnique(t, w.text, r, q);
    case Str(s) =>
      SameTail("\"", PutEscaped(s, "\"" + r), PutEscaped(w.s, "\"" + q));
      EscapedUnique(s, w.s, r, q);
    case Arr(a) =>
      SameTail("[", PutItems(v, 0, r), PutItems(w, 0, q));
      ItemsUnique(v, w, 0, r, q);
    case Obj(m) =>
      var ks, ls := Sorted(m.Keys), Sorted(w.fields.Keys);
      SameTail("{", PutFields(v, ks, 0, r), PutFields(w, ls, 0, q));
      FieldsUnique(v, w, ks, ls, 0, r, q);
      SameFields(m, w.fields, ks, ls);
  }

  lemma ItemsEnd(v: Json, i: nat, rest: string)
    requires v.Arr? && WellFormed(v) && i <= |v.items|
    ensures var t := PutItems(v, i, rest); t != "" && (t[0] == ']' <==> i == |v.items|)
  {
    if i < |v.items| {
      PutStarts(v.items[i], PutItems(v, i + 1, rest));
    }
  }

  lemma {:induction false} ItemsUnique(v: Json, w: Json, i: nat, r: string, q: string)
    requires v.Arr? && w.Arr? && WellFormed(v) && WellFormed(w) && i <= |v.items| && i <= |w.items|
    requires PutItems(v, i, r) == PutItems(w, i, q)
    ensures |v.items| == |w.items| && r == q
    ensures forall j | i <= j < |v.items| :: v.items[j] == w.items[j]
    decreases v, 0, |v.items| - i
  {
    if i == |v.items| || i == |w.items| {
      ItemsEnd(v, i, r);
      ItemsEnd(w, i, q);
      SameTail("]", r, q);
    } else {
      var a, b := PutItems(v, i + 1, r), PutItems(w, i + 1, q);
      SameTail(Comma(i), Put(v.items[i], a), Put(w.items[i], b));
      ItemsDelimited(v, i + 1, r);
      ItemsDelimited(w, i + 1, q);
      PutUnique(v.items[i], w.items[i], a, b);
      ItemsUnique(v, w, i + 1, r, q);
    }
  }

  lemma FieldsEnd(v: Json, keys: seq<string>, i: nat, rest: string)
    requires v.Obj? && i <= |keys| && forall k <- keys :: k in v.fields
    ensures var t := PutFields(v, keys, i, rest); t != "" && (t[0] == '}' <==> i == |keys|)
  {
  }

  lemma {:induction false} FieldsUnique(v: Json, w: Json, ks: seq<string>, ls: seq<string>, i: nat,
                                        r: string, q: string)
    requires v.Obj? && w.Obj? && WellFormed(v) && WellFormed(w) && i <= |ks| && i <= |ls|
    requires (forall k <- ks :: k in v.fields) && (forall k <- ls :: k in w.fields)
    requires PutFields(v, ks, i, r) == PutFields(w, ls, i, q)
    ensures |ks| == |ls| && r == q
    ensures forall j | i <= j < |ks| :: ks[j] == ls[j] && v.fields[ks[j]] == w.fields[ls[j]]
    decreases v, 0, |ks| - i
  {
    if i == |ks| || i == |ls| {
      FieldsEnd(v, ks, i, r);
      FieldsEnd(w, ls, i, q);
      SameTail("}", r, q);
    } else {
      var a, b := PutFields(v, ks, i + 1, r), PutFields(w, ls, i + 1, q);
      var c, d := Put(v.fields[ks[i]], a), Put(w.fields[ls[i]], b);
      var e, f := PutEscaped(ks[i], "\"" + (":" + c)), PutEscaped(ls[i], "\"" + (":" + d));
      SameTail(Comma(i), "\"" + e, "\"" + f);
      SameTail("\"", e, f);
      EscapedUnique(ks[i], ls[i], ":" + c, ":" + d);
      SameTail(":", c, d);
      FieldsDelimited(v, ks, i + 1, r);
      FieldsDelimited(w, ls, i + 1, q);
      PutUnique(v.fields[ks[i]], w.fields[ls[i]], a, b);
      FieldsUnique(v, w, ks, ls, i + 1, r, q);
    }
  }

  // ---- control characters ----

  lemma {:induction false} EscapedLacks(s: string, rest: string, c: char)
    requires c < ' ' && Lacks(rest, c)
    ensures Lacks(PutEscaped(s, rest), c)
    decreases |s|
  {
    if s != "" {
      EscapedLacks(s[1..], rest, c);
      assert Lacks(EscapeChar(s[0]), c);
    }
  }

  /** The encoder prints no control character. */
  lemma {:induction false} PutLacks(v: Json, rest: string, c: char)
    requires WellFormed(v) && c < ' ' && Lacks(rest, c)
    ensures Lacks(Put(v, rest), c)
    decreases v, 1, 0
  {
    match v
    case Str(s) => EscapedLacks(s, "\"" + rest, c);
    case Arr(_) => ItemsLack(v, 0, rest, c);
    case Obj(m) => FieldsLack(v, Sorted(m.Keys), 0, rest, c);
    case _ =>
  }

  lemma {:induction false} ItemsLack(v: Json, i: nat, rest: string, c: char)
    requires v.Arr? && WellFormed(v) && i <= |v.items| && c < ' ' && Lacks(rest, c)
    ensures Lacks(PutItems(v, i, rest), c)
    decreases v, 0, |v.items| - i
  {
    if i < |v.items| {
      ItemsLack(v, i + 1, rest, c);
      PutLacks(v.items[i], PutItems(v, i + 1, rest), c);
    }
  }

  lemma {:induction false} FieldsLack(v: Json, keys: seq<string>, i: nat, rest: string, c: char)
    requires v.Obj? && WellFormed(v) && i <= |keys| && (forall k <- keys :: k in v.fields)
    requires c < ' ' && Lacks(rest, c)
    ensures Lacks(PutFields(v, keys, i, rest), c)
    decreases v, 0, |keys| - i
  {
    if i < |keys| {
      var after := PutFields(v, keys, i + 1, rest);
      var value := Put(v.fields[keys[i]], after);
      FieldsLack(v, keys, i + 1, rest, c);
      PutLacks(v.fields[keys[i]], after, c);
      EscapedLacks(keys[i], "\"" + (":" + value), c);
    }
  }
}
