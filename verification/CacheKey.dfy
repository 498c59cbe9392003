/**
 The cache key of a request (internal/cache/cache.go): the canonical form of its JSON body, and the
 bytes fed to the hash. The decoder is a parameter, and so is the hash.
 */
module CacheKey {
  import opened Text
  import opened JsonText
  import opened JsonParse

  predicate Ephemeral(key: string) {
    key == "user" || key == "stream_options"
  }

  /** The value without the fields that do not affect the answer, at every depth. */
  function Strip(v: Json): Json
    decreases v
  {
    match v
    case Obj(m) => Obj(map k | k in m && !Ephemeral(k) :: Strip(m[k]))
    case Arr(a) => Arr(seq(|a|, i requires 0 <= i < |a| => Strip(a[i])))
    case _ => v
  }

  /** The program's way: a new object filled key by key, an array overwritten element by element. */
  method StripEphemeral(v: Json) returns (r: Json)
    ensures r == Strip(v)
    decreases v
  {
    if v.Obj? {
      var m := v.fields;
      var out: map<string, Json> := map[];
      var rest := m.Keys;
      while rest != {}
        invariant rest <= m.Keys
        invariant out == map k | k in m && k !in rest && !Ephemeral(k) :: Strip(m[k])
        decreases rest
      {
        var k :| k in rest;
        if !Ephemeral(k) {
          var x := StripEphemeral(m[k]);
          out := out[k := x];
        }
        rest := rest - {k};
      }
      return Obj(out);
    }
    if v.Arr? {
      var a := v.items;
      for i := 0 to |a|
        invariant |a| == |v.items|
        invariant forall j | 0 <= j < i :: a[j] == Strip(v.items[j])
        invariant forall j | i <= j < |a| :: a[j] == v.items[j]
      {
        var x := StripEphemeral(a[i]);
        a := a[i := x];
      }
      return Arr(a);
    }
    return v;
  }

  /** encoding/json: its decoder, and which texts its encoder prints for numbers. */
  datatype Codec = Codec(decode: string -> Option<Json>, printed: NumberTest)

  /** Decoded values have numbers the encoder can print, and nest no deeper than the decoder allows. */
  ghost predicate Sound(c: Codec) {
    forall body | c.decode(body).Some? ::
      Printed(c.decode(body).value, c.printed) && Fits(c.decode(body).value, MAX_DEPTH)
  }

  /** The decoder reads every compact text as the reader of JsonParse does; of other texts nothing is asked. */
  ghost predicate Agrees(c: Codec) {
    forall t | Parse(c.printed, t).Some? :: c.decode(t) == Parse(c.printed, t)
  }

  /** There is such a codec for every set of number texts: the reader of JsonParse is the decoder of one. */
  lemma CodecExists(printed: NumberTest)
    ensures var c := Codec(t => Parse(printed, t), printed); Sound(c) && Agrees(c)
  {
    var c := Codec(t => Parse(printed, t), printed);
    forall body | c.decode(body).Some?
      ensures Printed(c.decode(body).value, printed) && Fits(c.decode(body).value, MAX_DEPTH)
    {
      ValueSound(printed, body, MAX_DEPTH);
    }
  }

  /** The canonical bytes of a body; a body that does not parse stands for itself. */
  ghost function Canonical(c: Codec, body: string): string {
    match c.decode(body)
    case None => body
    case Some(v) => Encode(Strip(v))
  }

  lemma {:induction false} StripPrinted(v: Json, printed: NumberTest)
    requires Printed(v, printed)
    ensures Printed(Strip(v), printed)
    decreases v
  {
    match v
    case Obj(m) =>
      forall k | k in m ensures Printed(Strip(m[k]), printed) {
        StripPrinted(m[k], printed);
      }
    case Arr(a) =>
      forall i | 0 <= i < |a| ensures Printed(Strip(a[i]), printed) {
        StripPrinted(a[i], printed);
      }
    case _ =>
  }

  lemma {:induction false} StripFits(v: Json, depth: nat)
    requires Fits(v, depth)
    ensures Fits(Strip(v), depth)
    decreases v
  {
    match v
    case Obj(m) =>
      forall k | k in m ensures Fits(Strip(m[k]), depth - 1) {
        StripFits(m[k], depth - 1);
      }
    case Arr(a) =>
      forall i | 0 <= i < |a| ensures Fits(Strip(a[i]), depth - 1) {
        StripFits(a[i], depth - 1);
      }
    case _ =>
  }

  /** The canonical bytes of a body that parses decode to its stripped value. */
  lemma DecodesCanonical(c: Codec, body: string)
    requires Sound(c) && Agrees(c) && c.decode(body).Some?
    ensures c.decode(Canonical(c, body)) == Some(Strip(c.decode(body).value))
  {
    var v := c.decode(body).value;
    StripPrinted(v, c.printed);
    StripFits(v, MAX_DEPTH);
    ParseEncoded(c.printed, Strip(v));
  }

  lemma {:induction false} StripIdempotent(v: Json)
    ensures Strip(Strip(v)) == Strip(v)
    decreases v
  {
    match v
    case Obj(m) =>
      forall k | k in m ensures Strip(Strip(m[k])) == Strip(m[k]) {
        StripIdempotent(m[k]);
      }
    case Arr(a) =>
      forall i | 0 <= i < |a| ensures Strip(Strip(a[i])) == Strip(a[i]) {
        StripIdempotent(a[i]);
      }
    case _ =>
  }

  /** No object at any depth holds an ephemeral field. */
  ghost predicate Bare(v: Json)
    decreases v
  {
    match v
    case Obj(m) => forall k | k in m :: !Ephemeral(k) && Bare(m[k])
    case Arr(a) => forall i | 0 <= i < |a| :: Bare(a[i])
    case _ => true
  }

  /** Stripping removes exactly the ephemeral fields: a bare value is left as it is, and no other. */
  lemma {:induction false} StripLeavesBare(v: Json)
    ensures Bare(Strip(v))
    ensures Bare(v) <==> Strip(v) == v
    decreases v
  {
    match v
    case Obj(m) =>
      var n := Strip(v).fields;
      forall k | k in m ensures Bare(Strip(m[k])) && (Bare(m[k]) <==> Strip(m[k]) == m[k]) {
        StripLeavesBare(m[k]);
      }
      if Bare(v) {
        assert n == m;
      } else if k :| k in m && (Ephemeral(k) || !Bare(m[k])) {
        assert k !in n || n[k] != m[k];
      }
    case Arr(a) =>
      forall i | 0 <= i < |a| ensures Bare(Strip(a[i])) && (Bare(a[i]) <==> Strip(a[i]) == a[i]) {
        StripLeavesBare(a[i]);
      }
      if Bare(v) {
        assert Strip(v).items == a;
      } else if i :| 0 <= i < |a| && !Bare(a[i]) {
        assert Strip(v).items[i] != a[i];
      }
    case _ =>
  }

  /** A way into a value: fields of objects and places of arrays. */
  datatype Hop = Field(key: string) | Place(i: nat)

  /** What stands at the end of a way, if it leads anywhere. */
  function At(v: Json, way: seq<Hop>): Option<Json>
    decreases |way|
  {
    if way == [] then Some(v)
    else
      match (v, way[0])
      case (Obj(m), Field(k)) => if k in m then At(m[k], way[1..]) else None
      case (Arr(a), Place(i)) => if i < |a| then At(a[i], way[1..]) else None
      case _ => None
  }

  predicate ThroughEphemeral(way: seq<Hop>) {
    exists i | 0 <= i < |way| :: way[i].Field? && way[i].key in ["user", "stream_options"]
  }

  /** The value itself, without what it holds. */
  function Shape(v: Json): Json {
    match v
    case Obj(_) => Obj(map[])
    case Arr(a) => Arr(seq(|a|, _ => Null))
    case _ => v
  }

  /** Stripping cuts the ways through an ephemeral field and no others, and what stands elsewhere stays. */
  lemma {:induction false} StripReads(v: Json, way: seq<Hop>)
    ensures At(Strip(v), way).Some? <==> At(v, way).Some? && !ThroughEphemeral(way)
    ensures At(Strip(v), way).Some? ==> Shape(At(Strip(v), way).value) == Shape(At(v, way).value)
    decreases |way|
  {
    if way != [] {
      var rest := way[1..];
      assert ThroughEphemeral(way) <==> (way[0].Field? && Ephemeral(way[0].key)) || ThroughEphemeral(rest) by {
        if ThroughEphemeral(rest) {
          var i :| 0 <= i < |rest| && rest[i].Field? && rest[i].key in ["user", "stream_options"];
          assert way[i + 1] == rest[i];
        }
        assert forall i | 1 <= i < |way| :: way[i] == rest[i - 1];
      }
      match (v, way[0])
      case (Obj(m), Field(k)) =>
        if k in m {
          StripReads(m[k], rest);
        }
      case (Arr(a), Place(i)) =>
        if i < |a| {
          StripReads(a[i], rest);
        }
      case _ =>
    }
  }

  /** Two bodies have the same canonical bytes exactly when they agree up to ephemeral fields. */
  lemma CanonicalComplete(c: Codec, a: string, b: string)
    requires Sound(c) && c.decode(a).Some? && c.decode(b).Some?
    ensures Canonical(c, a) == Canonical(c, b) <==> Strip(c.decode(a).value) == Strip(c.decode(b).value)
  {
    var v, w := Strip(c.decode(a).value), Strip(c.decode(b).value);
    StripPrinted(c.decode(a).value, c.printed);
    StripPrinted(c.decode(b).value, c.printed);
    PrintedWellFormed(v, c.printed);
    PrintedWellFormed(w, c.printed);
    if Encode(v) == Encode(w) {
      PutUnique(v, w, "", "");
    }
  }

  /** A body that does not parse shares its canonical bytes with no other body. */
  lemma UnparsedStandsAlone(c: Codec, a: string, b: string)
    requires Sound(c) && Agrees(c) && c.decode(a).None?
    ensures Canonical(c, a) == Canonical(c, b) <==> a == b
  {
    if c.decode(b).Some? {
      DecodesCanonical(c, b);
    }
  }

  lemma CanonicalIdempotent(c: Codec, body: string)
    requires Sound(c) && Agrees(c)
    ensures Canonical(c, Canonical(c, body)) == Canonical(c, body)
  {
    if c.decode(body).Some? {
      StripIdempotent(c.decode(body).value);
      DecodesCanonical(c, body);
    }
  }

  // ---- the key ----

  const NUL: char := '\0'

  /** The bytes fed to the hash. */
  function Framed(namespace: string, path: string, canon: string): string {
    namespace + [NUL] + path + [NUL] + canon
  }

  /** The key: the hash of the framed request, under its namespace when there is one. */
  ghost function KeyForRequest(c: Codec, hash: string -> string, path: string, body: string,
                               namespace: string): string {
    var full := hash(Framed(namespace, path, Canonical(c, body)));
    if namespace != "" then namespace + "/" + full else full
  }

  lemma SplitAtNul(a: string, b: string, r: string, q: string)
    requires Lacks(a, NUL) && Lacks(b, NUL) && a + [NUL] + r == b + [NUL] + q
    ensures a == b && r == q
  {
    IndexOfHead(a, NUL, r);
    IndexOfHead(b, NUL, q);
    var whole := a + [NUL] + r;
    assert whole == b + [NUL] + q;
    assert a == whole[..|a|] && b == whole[..|b|] && r == whole[|a| + 1..] && q == whole[|b| + 1..];
  }

  /** The framing is injective for namespaces and paths without NUL. */
  lemma FramingInjective(ns: string, path: string, canon: string, ns': string, path': string, canon': string)
    requires Lacks(ns, NUL) && Lacks(ns', NUL) && Lacks(path, NUL) && Lacks(path', NUL)
    requires Framed(ns, path, canon) == Framed(ns', path', canon')
    ensures ns == ns' && path == path' && canon == canon'
  {
    var r, q := path + [NUL] + canon, path' + [NUL] + canon';
    assert Framed(ns, path, canon) == ns + [NUL] + r;
    assert Framed(ns', path', canon') == ns' + [NUL] + q;
    SplitAtNul(ns, ns', r, q);
    SplitAtNul(path, path', canon, canon');
  }

  /** Without that condition it is not: the boundary between namespace and path is lost. */
  lemma FramingWithNul()
    ensures Framed("a\0b", "c", "d") == Framed("a", "b", "c\0d")
  {
  }

  /** How many NULs there are. */
  function Nuls(s: string): nat {
    if s == "" then 0 else Nuls(s[..|s| - 1]) + if s[|s| - 1] == NUL then 1 else 0
  }

  lemma {:induction false} NulsConcat(a: string, b: string)
    ensures Nuls(a + b) == Nuls(a) + Nuls(b)
  {
    if b == "" {
      assert a + b == a;
    } else {
      NulsConcat(a, b[..|b| - 1]);
      assert (a + b)[..|a + b| - 1] == a + b[..|b| - 1];
    }
  }

  lemma {:induction false} NulsNone(s: string)
    ensures Nuls(s) == 0 <==> Lacks(s, NUL)
  {
    if s != "" {
      NulsNone(s[..|s| - 1]);
    }
  }

  lemma NulsFramed(ns: string, path: string, canon: string)
    ensures Nuls(Framed(ns, path, canon)) == Nuls(ns) + Nuls(path) + Nuls(canon) + 2
  {
    assert [NUL][..0] == "";
    NulsConcat(ns, [NUL]);
    NulsConcat(ns + [NUL], path);
    NulsConcat(ns + [NUL] + path, [NUL]);
    NulsConcat(ns + [NUL] + path + [NUL], canon);
  }

  /** No other namespace, path and body are framed alike. */
  ghost predicate FramedAlone(ns: string, path: string, canon: string) {
    forall ns', path', canon' | Framed(ns', path', canon') == Framed(ns, path, canon) ::
      ns' == ns && path' == path && canon' == canon
  }

  lemma FramedAloneWithout(ns: string, path: string, canon: string)
    requires Lacks(ns, NUL) && Lacks(path, NUL) && Lacks(canon, NUL)
    ensures FramedAlone(ns, path, canon)
  {
    NulsFramed(ns, path, canon);
    NulsNone(ns);
    NulsNone(path);
    NulsNone(canon);
    forall ns', path', canon' | Framed(ns', path', canon') == Framed(ns, path, canon)
      ensures ns' == ns && path' == path && canon' == canon
    {
      NulsFramed(ns', path', canon');
      NulsNone(ns');
      NulsNone(path');
      FramingInjective(ns', path', canon', ns, path, canon);
    }
  }

  /** Cutting the frame again at a NUL inside one of its parts gives another request. */
  lemma FramedOtherwise(ns: string, path: string, canon: string) returns (ns': string, path': string, canon': string)
    requires !(Lacks(ns, NUL) && Lacks(path, NUL) && Lacks(canon, NUL))
    ensures Framed(ns', path', canon') == Framed(ns, path, canon)
    ensures !(ns' == ns && path' == path && canon' == canon)
  {
    if i :| 0 <= i < |ns| && ns[i] == NUL {
      ns', path', canon' := ns[..i], ns[i + 1..], path + [NUL] + canon;
      assert ns == ns' + [NUL] + path';
    } else if i :| 0 <= i < |path| && path[i] == NUL {
      ns', path', canon' := ns, path[..i], path[i + 1..] + [NUL] + canon;
      assert path == path' + [NUL] + path[i + 1..];
    } else {
      var i :| 0 <= i < |canon| && canon[i] == NUL;
      ns', path', canon' := ns + [NUL] + path, canon[..i], canon[i + 1..];
      assert canon == path' + [NUL] + canon';
    }
  }

  /** A request is framed like no other exactly when none of its parts holds a NUL. */
  lemma FramedAloneExactly(ns: string, path: string, canon: string)
    ensures FramedAlone(ns, path, canon) <==> Lacks(ns, NUL) && Lacks(path, NUL) && Lacks(canon, NUL)
  {
    if Lacks(ns, NUL) && Lacks(path, NUL) && Lacks(canon, NUL) {
      FramedAloneWithout(ns, path, canon);
    } else {
      var ns', path', canon' := FramedOtherwise(ns, path, canon);
    }
  }

  /** The canonical bytes of a body that parses hold none, so there it is up to namespace and path. */
  lemma ParsedFramedAlone(c: Codec, ns: string, path: string, body: string)
    requires Sound(c) && c.decode(body).Some?
    ensures FramedAlone(ns, path, Canonical(c, body)) <==> Lacks(ns, NUL) && Lacks(path, NUL)
  {
    var v := Strip(c.decode(body).value);
    StripPrinted(c.decode(body).value, c.printed);
    PrintedWellFormed(v, c.printed);
    PutLacks(v, "", NUL);
    FramedAloneExactly(ns, path, Canonical(c, body));
  }

  /** Two requests are hashed from the same bytes exactly when they ask the same thing in the same place. */
  lemma SameBytesSameRequest(c: Codec, ns: string, path: string, a: string, ns': string, path': string, b: string)
    requires Sound(c) && c.decode(a).Some? && c.decode(b).Some?
    requires Lacks(ns, NUL) && Lacks(ns', NUL) && Lacks(path, NUL) && Lacks(path', NUL)
    ensures Framed(ns, path, Canonical(c, a)) == Framed(ns', path', Canonical(c, b)) <==>
            ns == ns' && path == path' && Strip(c.decode(a).value) == Strip(c.decode(b).value)
  {
    CanonicalComplete(c, a, b);
    if Framed(ns, path, Canonical(c, a)) == Framed(ns', path', Canonical(c, b)) {
      FramingInjective(ns, path, Canonical(c, a), ns', path', Canonical(c, b));
    }
  }

  /** The bodies ask the same: equal up to ephemeral fields when both parse, and byte for byte otherwise. */
  ghost predicate AskSame(c: Codec, a: string, b: string) {
    if c.decode(a).Some? && c.decode(b).Some? then Strip(c.decode(a).value) == Strip(c.decode(b).value) else a == b
  }

  lemma CanonicalAsks(c: Codec, a: string, b: string)
    requires Sound(c) && Agrees(c)
    ensures Canonical(c, a) == Canonical(c, b) <==> AskSame(c, a, b)
  {
    if c.decode(a).None? {
      UnparsedStandsAlone(c, a, b);
    } else if c.decode(b).None? {
      UnparsedStandsAlone(c, b, a);
    } else {
      CanonicalComplete(c, a, b);
    }
  }

  /** The namespace is the key up to its last slash. */
  lemma KeySplits(ns: string, full: string, ns': string, full': string)
    requires Lacks(full, '/') && Lacks(full', '/') && ns + "/" + full == ns' + "/" + full'
    ensures ns == ns' && full == full'
  {
    var key := ns + "/" + full;
    assert key == ns' + "/" + full';
    assert key[|ns|] == '/' && key[|ns'|] == '/';
    assert forall i | |ns| < i < |key| :: key[i] == full[i - |ns| - 1];
    assert forall i | |ns'| < i < |key| :: key[i] == full'[i - |ns'| - 1];
    assert |ns| == |ns'|;
    assert ns == key[..|ns|] && ns' == key[..|ns'|] && full == key[|ns| + 1..] && full' == key[|ns'| + 1..];
  }

  /**
   Two requests have the same key exactly when they ask the same thing in the same place, for every hash
   that tells the texts of these two apart and prints no slash.
   */
  lemma SameKeySameRequest(c: Codec, hash: string -> string, ns: string, path: string, a: string,
                           ns': string, path': string, b: string)
    requires Sound(c) && Agrees(c) && forall s :: Lacks(hash(s), '/')
    requires Lacks(ns, NUL) && Lacks(ns', NUL) && Lacks(path, NUL) && Lacks(path', NUL)
    requires var x, y := Framed(ns, path, Canonical(c, a)), Framed(ns', path', Canonical(c, b));
             hash(x) == hash(y) ==> x == y
    ensures KeyForRequest(c, hash, path, a, ns) == KeyForRequest(c, hash, path', b, ns') <==>
            ns == ns' && path == path' && AskSame(c, a, b)
  {
    var x, y := Framed(ns, path, Canonical(c, a)), Framed(ns', path', Canonical(c, b));
    CanonicalAsks(c, a, b);
    assert (ns + "/" + hash(x))[|ns|] == '/' && (ns' + "/" + hash(y))[|ns'|] == '/';
    if KeyForRequest(c, hash, path, a, ns) == KeyForRequest(c, hash, path', b, ns') {
      assert Lacks(hash(x), '/') && Lacks(hash(y), '/');
      if ns != "" && ns' != "" {
        KeySplits(ns, hash(x), ns', hash(y));
      }
      FramingInjective(ns, path, Canonical(c, a), ns', path', Canonical(c, b));
    }
  }

  /**
   Clearing a namespace clears the entries of that namespace, and those of any namespace that has it
   as a leading path segment, and no others.
   */
  lemma NamespaceCleared(c: Codec, hash: string -> string, path: string, body: string,
                         namespace: string, cleared: string)
    requires forall s :: Lacks(hash(s), '/')
    ensures cleared + "/" <= KeyForRequest(c, hash, path, body, namespace) <==>
            (namespace == cleared && cleared != "") || cleared + "/" <= namespace
  {
    var full := hash(Framed(namespace, path, Canonical(c, body)));
    var key, prefix := namespace + "/" + full, cleared + "/";
    assert prefix[|cleared|] == '/';
    assert Lacks(full, '/');
    if namespace == "" {
      assert !(prefix <= full);
    } else if |prefix| <= |namespace| {
      assert namespace == key[..|namespace|];
    } else {
      var n := |namespace| + 1;
      assert prefix <= key ==> prefix == key[..|prefix|];
      assert |prefix| == n ==> key[..|prefix|] == namespace + "/";
      assert n < |prefix| <= |key| ==> key[|cleared|] == full[|cleared| - n];
      assert namespace == prefix[..|cleared|] <==> namespace == cleared;
    }
  }
}
