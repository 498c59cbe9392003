/**
 A reader of the compact texts the encoder prints, and the proof that it inverts the encoder. It accepts
 nothing else: the encoder's own escapes, numbers as the encoder prints them, no spaces, no key twice,
 and no deeper nesting than the decoder allows.
 */
module JsonParse {
  import opened Text
  import opened JsonText

  /** The deepest nesting encoding/json decodes. */
  const MAX_DEPTH: nat := 10_000

  datatype Read<T> = Read(value: T, rest: string)

  /** Whether a text is one the encoder prints for a number. */
  type NumberTest = string -> bool

  // ---- what the encoder prints ----

  ghost predicate Printed(v: Json, printed: NumberTest)
    decreases v
  {
    match v
    case Num(t) => printed(t) && NumText(t)
    case Arr(a) => forall i | 0 <= i < |a| :: Printed(a[i], printed)
    case Obj(m) => forall k | k in m :: Printed(m[k], printed)
    case _ => true
  }

  /** The value nests at most `depth` deep. */
  ghost predicate Fits(v: Json, depth: nat)
    decreases v
  {
    match v
    case Arr(a) => 0 < depth && forall i | 0 <= i < |a| :: Fits(a[i], depth - 1)
    case Obj(m) => 0 < depth && forall k | k in m :: Fits(m[k], depth - 1)
    case _ => true
  }

  // ---- the reader ----

  /** The characters of a string up to its closing quote. */
  function ReadString(t: string): (r: Option<Read<string>>)
    decreases |t|
    ensures r.Some? ==> |r.value.rest| < |t|
  {
    if t == "" then None
    else if t[0] == '"' then Some(Read("", t[1..]))
    else
      var c := FirstChar(t);
      var n := |EscapeChar(c)|;
      if !(EscapeChar(c) <= t) then None
      else
        match ReadString(t[n..])
        case None => None
        case Some(r) => Some(Read([c] + r.value, r.rest))
  }

  /** How many characters of `t` from `i` on can be part of a number. */
  function NumEnd(t: string, i: nat): (n: nat)
    requires i <= |t|
    ensures i <= n <= |t| && forall j | i <= j < n :: NumChar(t[j])
    ensures n < |t| ==> !NumChar(t[n])
    decreases |t| - i
  {
    if i < |t| && NumChar(t[i]) then NumEnd(t, i + 1) else i
  }

  predicate StartsWith(t: string, c: char) {
    t != "" && t[0] == c
  }

  function ReadWord(t: string): (r: Option<Read<Json>>)
    ensures r.Some? ==> |r.value.rest| < |t|
  {
    if "null" <= t then Some(Read(Null, t[4..]))
    else if "true" <= t then Some(Read(Bool(true), t[4..]))
    else if "false" <= t then Some(Read(Bool(false), t[5..]))
    else None
  }

  function ReadNumber(printed: NumberTest, t: string): (r: Option<Read<Json>>)
    ensures r.Some? ==> |r.value.rest| < |t|
  {
    var n := NumEnd(t, 0);
    if n > 0 && NumText(t[..n]) && printed(t[..n]) then Some(Read(Num(t[..n]), t[n..])) else None
  }

  ghost function ReadValue(printed: NumberTest, t: string, depth: nat): (r: Option<Read<Json>>)
    decreases |t|, 1
    ensures r.Some? ==> |r.value.rest| < |t|
  {
    if StartsWith(t, '"') then
      match ReadString(t[1..])
      case None => None
      case Some(r) => Some(Read(Str(r.value), r.rest))
    else if StartsWith(t, '[') then
      if depth == 0 then None
      else if StartsWith(t[1..], ']') then Some(Read(Arr([]), t[2..]))
      else
        match ReadItems(printed, t[1..], depth - 1)
        case None => None
        case Some(r) => Some(Read(Arr(r.value), r.rest))
    else if StartsWith(t, '{') then
      if depth == 0 then None
      else if StartsWith(t[1..], '}') then Some(Read(Obj(map[]), t[2..]))
      else
        match ReadFields(printed, t[1..], depth - 1)
        case None => None
        case Some(r) => Some(Read(Obj(r.value), r.rest))
    else if StartsWith(t, 'n') || StartsWith(t, 't') || StartsWith(t, 'f') then ReadWord(t)
    else ReadNumber(printed, t)
  }

  /** One or more values, up to the closing bracket. */
  ghost function ReadItems(printed: NumberTest, t: string, depth: nat): (r: Option<Read<seq<Json>>>)
    decreases |t|, 2
    ensures r.Some? ==> |r.value.rest| < |t|
  {
    match ReadValue(printed, t, depth)
    case None => None
    case Some(v) =>
      if StartsWith(v.rest, ']') then Some(Read([v.value], v.rest[1..]))
      else if StartsWith(v.rest, ',') then
        match ReadItems(printed, v.rest[1..], depth)
        case None => None
        case Some(r) => Some(Read([v.value] + r.value, r.rest))
      else None
  }

  /** A key, its colon and its value. */
  ghost function ReadField(printed: NumberTest, t: string, depth: nat): (r: Option<Read<(string, Json)>>)
    decreases |t|, 2
    ensures r.Some? ==> |r.value.rest| < |t|
  {
    if !StartsWith(t, '"') then None
    else
      match ReadString(t[1..])
      case None => None
      case Some(k) =>
        if !StartsWith(k.rest, ':') then None
        else
          match ReadValue(printed, k.rest[1..], depth)
          case None => None
          case Some(v) => Some(Read((k.value, v.value), v.rest))
  }

  /** One or more fields, up to the closing brace. */
  ghost function ReadFields(printed: NumberTest, t: string, depth: nat): (r: Option<Read<map<string, Json>>>)
    decreases |t|, 3
    ensures r.Some? ==> |r.value.rest| < |t|
  {
    match ReadField(printed, t, depth)
    case None => None
    case Some(f) =>
      if StartsWith(f.rest, '}') then Some(Read(map[f.value.0 := f.value.1], f.rest[1..]))
      else if StartsWith(f.rest, ',') then
        match ReadFields(printed, f.rest[1..], depth)
        case None => None
        case Some(r) => if f.value.0 in r.value then None else Some(Read(r.value[f.value.0 := f.value.1], r.rest))
      else None
  }

  /** The value a whole text is the compact form of. */
  ghost function Parse(printed: NumberTest, t: string): Option<Json> {
    match ReadValue(printed, t, MAX_DEPTH)
    case None => None
    case Some(r) => if r.rest == "" then Some(r.value) else None
  }

  // ---- the reader inverts the encoder ----

  lemma {:induction false} StringRead(s: string, rest: string)
    ensures ReadString(PutEscaped(s, "\"" + rest)) == Some(Read(s, rest))
    decreases |s|
  {
    if s == "" {
      assert ("\"" + rest)[1..] == rest;
    } else {
      var t := PutEscaped(s, "\"" + rest);
      var tail := PutEscaped(s[1..], "\"" + rest);
      EscapeStart(s, "\"" + rest);
      FirstCharEscaped(s[0], tail);
      assert t == EscapeChar(s[0]) + tail && t[|EscapeChar(s[0])|..] == tail;
      StringRead(s[1..], rest);
      assert [s[0]] + s[1..] == s;
    }
  }

  lemma NumRead(printed: NumberTest, t: string, rest: string)
    requires NumText(t) && printed(t) && Delimited(rest)
    ensures ReadNumber(printed, t + rest) == Some(Read(Num(t), rest))
  {
    var s := t + rest;
    assert forall i | 0 <= i < |t| :: s[i] == t[i];
    assert |t| < |s| ==> s[|t|] == rest[0];
    var n := NumEnd(s, 0);
    assert n == |t|;
    assert s[..n] == t && s[n..] == rest;
  }

  lemma WordRead(v: Json, rest: string)
    requires v.Null? || v.Bool?
    ensures ReadWord(Put(v, rest)) == Some(Read(v, rest))
  {
    var word := match v case Null => "null" case Bool(b) => if b then "true" else "false";
    var t := word + rest;
    assert t == Put(v, rest) && t[0] == word[0] && t[..|word|] == word && t[|word|..] == rest;
  }

  lemma {:induction false} PrintedWellFormed(v: Json, printed: NumberTest)
    requires Printed(v, printed)
    ensures WellFormed(v)
    decreases v
  {
    match v
    case Arr(a) =>
      forall i | 0 <= i < |a| ensures WellFormed(a[i]) {
        PrintedWellFormed(a[i], printed);
      }
    case Obj(m) =>
      forall k | k in m ensures WellFormed(m[k]) {
        PrintedWellFormed(m[k], printed);
      }
    case _ =>
  }

  /** The fields from the `i`-th key on. */
  ghost function FieldsFrom(m: map<string, Json>, keys: seq<string>, i: nat): map<string, Json>
    requires i <= |keys| && forall k <- keys :: k in m
  {
    map k | k in keys[i..] :: m[k]
  }

  lemma AllFields(m: map<string, Json>, keys: seq<string>)
    requires forall k :: k in keys <==> k in m
    ensures FieldsFrom(m, keys, 0) == m
  {
    assert keys[0..] == keys;
  }

  lemma FieldsNext(m: map<string, Json>, keys: seq<string>, i: nat)
    requires i < |keys| && Ascending(keys) && forall k <- keys :: k in m
    ensures keys[i] !in FieldsFrom(m, keys, i + 1)
    ensures FieldsFrom(m, keys, i) == FieldsFrom(m, keys, i + 1)[keys[i] := m[keys[i]]]
  {
    assert keys[i..] == [keys[i]] + keys[i + 1..];
    Irreflexive(keys[i]);
    forall k | k in keys[i + 1..] ensures Before(keys[i], k) {
      var j :| i + 1 <= j < |keys| && keys[j] == k;
    }
  }

  /** What follows the opening brace or a comma: a field and all after it. */
  ghost function FieldText(v: Json, keys: seq<string>, i: nat, rest: string): string
    requires v.Obj? && i < |keys| && forall k <- keys :: k in v.fields
  {
    "\"" + PutEscaped(keys[i], "\"" + (":" + Put(v.fields[keys[i]], PutFields(v, keys, i + 1, rest))))
  }

  /** Reading the text of a value gives the value and leaves what follows it. */
  lemma {:induction false} ValueRead(printed: NumberTest, v: Json, rest: string, depth: nat)
    requires Printed(v, printed) && Fits(v, depth) && Delimited(rest)
    ensures ReadValue(printed, Put(v, rest), depth) == Some(Read(v, rest))
    decreases v, 1, 0
  {
    PrintedWellFormed(v, printed);
    PutStarts(v, rest);
    match v
    case Null => WordRead(v, rest);
    case Bool(_) => WordRead(v, rest);
    case Num(n) => NumRead(printed, n, rest);
    case Str(s) =>
      assert Put(v, rest)[1..] == PutEscaped(s, "\"" + rest);
      StringRead(s, rest);
    case Arr(_) => ArrayRead(printed, v, rest, depth);
    case Obj(_) => ObjectRead(printed, v, rest, depth);
  }

  lemma ArrayText(v: Json, rest: string)
    requires v.Arr? && WellFormed(v)
    ensures var t := Put(v, rest);
            if v.items == [] then StartsWith(t, '[') && StartsWith(t[1..], ']') && t[2..] == rest
            else StartsWith(t, '[') && t[1..] == Put(v.items[0], PutItems(v, 1, rest)) && !StartsWith(t[1..], ']')
  {
    var inner := PutItems(v, 0, rest);
    var t := "[" + inner;
    assert t == Put(v, rest) && t[1..] == inner;
    if v.items == [] {
      assert inner == "]" + rest && inner[1..] == rest && t[2..] == inner[1..];
    } else {
      var text := Put(v.items[0], PutItems(v, 1, rest));
      assert inner == Comma(0) + text == text;
      PutStarts(v.items[0], PutItems(v, 1, rest));
    }
  }

  lemma {:induction false} ArrayRead(printed: NumberTest, v: Json, rest: string, depth: nat)
    requires v.Arr? && Printed(v, printed) && Fits(v, depth) && Delimited(rest)
    ensures ReadValue(printed, Put(v, rest), depth) == Some(Read(v, rest))
    decreases v, 0, |v.items| + 2
  {
    PrintedWellFormed(v, printed);
    ArrayText(v, rest);
    if v.items != [] {
      ElementsRead(printed, v, Put(v, rest), rest, depth);
    }
  }

  lemma {:induction false} ElementsRead(printed: NumberTest, v: Json, t: string, rest: string, depth: nat)
    requires v.Arr? && Printed(v, printed) && Fits(v, depth) && Delimited(rest) && v.items != []
    requires StartsWith(t, '[') && t[1..] == Put(v.items[0], PutItems(v, 1, rest)) && !StartsWith(t[1..], ']')
    ensures ReadValue(printed, t, depth) == Some(Read(v, rest))
    decreases v, 0, |v.items| + 1
  {
    ItemsRead(printed, v, 0, rest, depth - 1);
    assert v.items[0..] == v.items;
  }

  lemma ItemsAfter(v: Json, i: nat, rest: string)
    requires v.Arr? && 0 < i <= |v.items|
    ensures var t := PutItems(v, i, rest);
            if i == |v.items| then StartsWith(t, ']') && t[1..] == rest
            else StartsWith(t, ',') && t[1..] == Put(v.items[i], PutItems(v, i + 1, rest))
  {
    var t := PutItems(v, i, rest);
    if i < |v.items| {
      var text := Put(v.items[i], PutItems(v, i + 1, rest));
      assert t == "," + text && t[1..] == text;
    } else {
      assert t == "]" + rest && t[1..] == rest;
    }
  }

  lemma {:induction false} ItemsRead(printed: NumberTest, v: Json, i: nat, rest: string, depth: nat)
    requires v.Arr? && Printed(v, printed) && Fits(v, depth + 1) && i < |v.items|
    ensures ReadItems(printed, Put(v.items[i], PutItems(v, i + 1, rest)), depth) == Some(Read(v.items[i..], rest))
    decreases v, 0, |v.items| - i
  {
    var after := PutItems(v, i + 1, rest);
    ItemsDelimited(v, i + 1, rest);
    ValueRead(printed, v.items[i], after, depth);
    ItemsAfter(v, i + 1, rest);
    if i + 1 == |v.items| {
      assert v.items[i..] == [v.items[i]];
    } else {
      ItemsRead(printed, v, i + 1, rest, depth);
      assert v.items[i..] == [v.items[i]] + v.items[i + 1..];
    }
  }

  lemma ObjectText(v: Json, keys: seq<string>, rest: string)
    requires v.Obj? && keys == Sorted(v.fields.Keys)
    ensures var t := Put(v, rest);
            if keys == [] then StartsWith(t, '{') && StartsWith(t[1..], '}') && t[2..] == rest
            else StartsWith(t, '{') && t[1..] == FieldText(v, keys, 0, rest) && !StartsWith(t[1..], '}')
  {
    var inner := PutFields(v, keys, 0, rest);
    var t := "{" + inner;
    assert t == Put(v, rest) && t[1..] == inner;
    if keys == [] {
      assert inner == "}" + rest && inner[1..] == rest && t[2..] == inner[1..];
    } else {
      var text := FieldText(v, keys, 0, rest);
      assert inner == Comma(0) + text == text;
    }
  }

  lemma {:induction false} ObjectRead(printed: NumberTest, v: Json, rest: string, depth: nat)
    requires v.Obj? && Printed(v, printed) && Fits(v, depth) && Delimited(rest)
    ensures ReadValue(printed, Put(v, rest), depth) == Some(Read(v, rest))
    decreases v, 0, |Sorted(v.fields.Keys)| + 2
  {
    var keys := Sorted(v.fields.Keys);
    ObjectText(v, keys, rest);
    SortedAscends(v.fields.Keys);
    if keys == [] {
      assert v.fields == map[];
    } else {
      KeysRead(printed, v, keys, Put(v, rest), rest, depth);
    }
  }

  lemma {:induction false} KeysRead(printed: NumberTest, v: Json, keys: seq<string>, t: string, rest: string,
                                    depth: nat)
    requires v.Obj? && Printed(v, printed) && Fits(v, depth) && Delimited(rest)
    requires keys != [] && Ascending(keys) && forall k :: k in keys <==> k in v.fields
    requires StartsWith(t, '{') && t[1..] == FieldText(v, keys, 0, rest) && !StartsWith(t[1..], '}')
    ensures ReadValue(printed, t, depth) == Some(Read(v, rest))
    decreases v, 0, |keys| + 1
  {
    FieldsRead(printed, v, keys, 0, rest, depth - 1);
    AllFields(v.fields, keys);
  }

  lemma FieldsAfter(v: Json, keys: seq<string>, i: nat, rest: string)
    requires v.Obj? && 0 < i <= |keys| && forall k <- keys :: k in v.fields
    ensures var t := PutFields(v, keys, i, rest);
            if i == |keys| then StartsWith(t, '}') && t[1..] == rest
            else StartsWith(t, ',') && t[1..] == FieldText(v, keys, i, rest)
  {
    var t := PutFields(v, keys, i, rest);
    if i < |keys| {
      var text := FieldText(v, keys, i, rest);
      assert t == "," + text && t[1..] == text;
    } else {
      assert t == "}" + rest && t[1..] == rest;
    }
  }

  lemma {:induction false} FieldRead(printed: NumberTest, v: Json, keys: seq<string>, i: nat, rest: string, depth: nat)
    requires v.Obj? && Printed(v, printed) && Fits(v, depth + 1)
    requires i < |keys| && forall k <- keys :: k in v.fields
    ensures ReadField(printed, FieldText(v, keys, i, rest), depth) ==
            Some(Read((keys[i], v.fields[keys[i]]), PutFields(v, keys, i + 1, rest)))
    decreases v, 0, 0
  {
    var k, after := keys[i], PutFields(v, keys, i + 1, rest);
    var value := ":" + Put(v.fields[k], after);
    var t := "\"" + PutEscaped(k, "\"" + value);
    assert t == FieldText(v, keys, i, rest) && t[1..] == PutEscaped(k, "\"" + value);
    StringRead(k, value);
    assert value[1..] == Put(v.fields[k], after);
    FieldsDelimited(v, keys, i + 1, rest);
    ValueRead(printed, v.fields[k], after, depth);
  }

  lemma {:induction false} FieldsRead(printed: NumberTest, v: Json, keys: seq<string>, i: nat, rest: string, depth: nat)
    requires v.Obj? && Printed(v, printed) && Fits(v, depth + 1)
    requires i < |keys| && Ascending(keys) && forall k <- keys :: k in v.fields
    ensures ReadFields(printed, FieldText(v, keys, i, rest), depth) == Some(Read(FieldsFrom(v.fields, keys, i), rest))
    decreases v, 0, |keys| - i
  {
    FieldRead(printed, v, keys, i, rest, depth);
    FieldsAfter(v, keys, i + 1, rest);
    FieldsNext(v.fields, keys, i);
    if i + 1 == |keys| {
      assert keys[i + 1..] == [] && FieldsFrom(v.fields, keys, i + 1) == map[];
    } else {
      FieldsRead(printed, v, keys, i + 1, rest, depth);
    }
  }

  /** The reader inverts the encoder on every value it can print. */
  lemma ParseEncoded(printed: NumberTest, v: Json)
    requires Printed(v, printed) && Fits(v, MAX_DEPTH)
    ensures Parse(printed, Encode(v)) == Some(v)
  {
    ValueRead(printed, v, "", MAX_DEPTH);
  }

  // ---- what the reader yields ----

  /** Printed numbers only, and no deeper nesting than allowed. */
  ghost predicate Proper(v: Json, printed: NumberTest, depth: nat) {
    Printed(v, printed) && Fits(v, depth)
  }

  ghost predicate AllProper(vs: seq<Json>, printed: NumberTest, depth: nat) {
    forall i | 0 <= i < |vs| :: Proper(vs[i], printed, depth)
  }

  ghost predicate ProperFields(m: map<string, Json>, printed: NumberTest, depth: nat) {
    forall k | k in m :: Proper(m[k], printed, depth)
  }

  lemma ProperCons(v: Json, vs: seq<Json>, printed: NumberTest, depth: nat)
    requires Proper(v, printed, depth) && AllProper(vs, printed, depth)
    ensures AllProper([v] + vs, printed, depth)
  {
    var all := [v] + vs;
    assert forall i | 1 <= i < |all| :: all[i] == vs[i - 1];
  }

  lemma {:induction false} ValueSound(printed: NumberTest, t: string, depth: nat)
    ensures var r := ReadValue(printed, t, depth); r.Some? ==> Proper(r.value.value, printed, depth)
    decreases |t|, 1
  {
    if StartsWith(t, '[') && 0 < depth {
      ItemsSound(printed, t[1..], depth - 1);
    } else if StartsWith(t, '{') && 0 < depth {
      FieldsSound(printed, t[1..], depth - 1);
    }
  }

  lemma {:induction false} ItemsSound(printed: NumberTest, t: string, depth: nat)
    ensures var r := ReadItems(printed, t, depth);
            r.Some? ==> AllProper(r.value.value, printed, depth)
    decreases |t|, 2
  {
    ValueSound(printed, t, depth);
    var r, v := ReadItems(printed, t, depth), ReadValue(printed, t, depth);
    if r.Some? {
      if StartsWith(v.value.rest, ']') {
        assert r.value.value == [v.value.value];
      } else {
        var more := ReadItems(printed, v.value.rest[1..], depth);
        ItemsSound(printed, v.value.rest[1..], depth);
        ProperCons(v.value.value, more.value.value, printed, depth);
      }
    }
  }

  lemma {:induction false} FieldsSound(printed: NumberTest, t: string, depth: nat)
    ensures var r := ReadFields(printed, t, depth);
            r.Some? ==> ProperFields(r.value.value, printed, depth)
    decreases |t|, 3
  {
    FieldSound(printed, t, depth);
    var r, f := ReadFields(printed, t, depth), ReadField(printed, t, depth);
    if r.Some? {
      if StartsWith(f.value.rest, '}') {
        assert r.value.value == map[f.value.value.0 := f.value.value.1];
      } else {
        var more := ReadFields(printed, f.value.rest[1..], depth);
        FieldsSound(printed, f.value.rest[1..], depth);
        assert r.value.value == more.value.value[f.value.value.0 := f.value.value.1];
      }
    }
  }

  lemma {:induction false} FieldSound(printed: NumberTest, t: string, depth: nat)
    ensures var r := ReadField(printed, t, depth); r.Some? ==> Proper(r.value.value.1, printed, depth)
    decreases |t|, 2
  {
    if StartsWith(t, '"') {
      var k := ReadString(t[1..]);
      if k.Some? && StartsWith(k.value.rest, ':') {
        ValueSound(printed, k.value.rest[1..], depth);
      }
    }
  }
}
