/**
 What a chat stream says, read off its events and the fields of its chunks, and that this is what the
 translated message says.
 */
module MessageReading {
  import opened Text
  import opened MessageStream
  import opened MessageContents
  import opened MessageEnds

  // ---- events ----

  /** A line of an event: one that carries data, or any other. */
  datatype Line = Data(data: string) | Other(text: string) {
    predicate Proper() {
      match this
      case Data(data) => NoNewline(data)
      case Other(text) => NoNewline(text) && text != "" && !("data: " <= text)
    }
    function Text(): string {
      match this
      case Data(data) => "data: " + data
      case Other(text) => text
    }
  }

  predicate Proper(ls: seq<Line>) {
    ls != [] && forall i | 0 <= i < |ls| :: ls[i].Proper()
  }

  /** The lines of an event, with a newline between them. */
  function Joined(ls: seq<Line>): string {
    if ls == [] then ""
    else if |ls| == 1 then ls[0].Text()
    else ls[0].Text() + "\n" + Joined(ls[1..])
  }

  /** Events on the wire, a blank line behind each. */
  function Wire(events: seq<seq<Line>>): string {
    if events == [] then "" else Joined(events[0]) + "\n\n" + Wire(events[1..])
  }

  /** The data of an event's lines, in order. */
  function DataLines(ls: seq<Line>): seq<string> {
    if ls == [] then []
    else DataLines(ls[..|ls| - 1]) + match ls[|ls| - 1] { case Data(data) => [data] case Other(_) => [] }
  }

  function AllDataLines(events: seq<seq<Line>>): seq<string> {
    if events == [] then [] else DataLines(events[0]) + AllDataLines(events[1..])
  }

  function Texts(ls: seq<Line>): (r: seq<string>)
    ensures |r| == |ls|
  {
    seq(|ls|, i requires 0 <= i < |ls| => ls[i].Text())
  }

  lemma LineRead(l: Line)
    requires l.Proper()
    ensures NoNewline(l.Text()) && l.Text() != ""
    ensures DataLine(l.Text()) == match l { case Data(data) => [data] case Other(_) => [] }
  {
    if l.Data? {
      assert l.Text()[..|DATA|] == DATA && l.Text()[|DATA|..] == l.data;
    }
  }

  lemma {:induction false} TextsRead(ls: seq<Line>)
    requires forall i | 0 <= i < |ls| :: ls[i].Proper()
    ensures DataIn(Texts(ls)) == DataLines(ls)
  {
    if ls != [] {
      TextsRead(ls[..|ls| - 1]);
      LineRead(ls[|ls| - 1]);
      assert Texts(ls)[..|ls| - 1] == Texts(ls[..|ls| - 1]);
    }
  }

  lemma SplitFirst(first: string, more: string)
    requires NoNewline(first)
    ensures SplitLines(first + "\n" + more) == [first] + SplitLines(more)
  {
    var all := first + ['\n'] + more;
    IndexOfHead(first, '\n', more);
    assert all[..|first|] == first && all[|first| + 1..] == more;
  }

  lemma TextsFirst(ls: seq<Line>)
    requires ls != []
    ensures Texts(ls) == [ls[0].Text()] + Texts(ls[1..])
  {
  }

  lemma {:induction false} LinesSplit(ls: seq<Line>)
    requires Proper(ls)
    ensures SplitLines(Joined(ls)) == Texts(ls)
    decreases |ls|
  {
    LineRead(ls[0]);
    TextsFirst(ls);
    if |ls| > 1 {
      LinesSplit(ls[1..]);
      SplitFirst(ls[0].Text(), Joined(ls[1..]));
    } else {
      assert Texts(ls[1..]) == [] && [ls[0].Text()] + [] == [ls[0].Text()];
    }
  }

  /** No line of an event is blank, and neither its first byte nor its last is a newline. */
  lemma {:induction false} NoBlankWithin(ls: seq<Line>)
    requires Proper(ls)
    ensures var e := Joined(ls);
            e != "" && e[0] != '\n' && e[|e| - 1] != '\n' && forall j | 0 <= j < |e| - 1 :: !BlankAt(e, j)
    decreases |ls|
  {
    var first := ls[0].Text();
    LineRead(ls[0]);
    if |ls| > 1 {
      NoBlankWithin(ls[1..]);
      var more := Joined(ls[1..]);
      var e := first + "\n" + more;
      forall j | 0 <= j < |e| - 1 ensures !BlankAt(e, j) {
        if j > |first| {
          assert !BlankAt(more, j - |first| - 1);
        }
      }
    }
  }

  lemma EventEnds(ls: seq<Line>, rest: string)
    requires Proper(ls)
    ensures Gap(Joined(ls) + "\n\n" + rest, 0) == |Joined(ls)|
  {
    NoBlankWithin(ls);
    var e, all := Joined(ls), Joined(ls) + "\n\n" + rest;
    forall j | 0 <= j < |e| ensures !BlankAt(all, j) {
      assert all[j] == e[j];
      assert j < |e| - 1 ==> all[j + 1] == e[j + 1] && !BlankAt(e, j);
    }
    assert BlankAt(all, |e|);
  }

  lemma FirstEvent(ls: seq<Line>, more: string)
    requires Proper(ls)
    ensures AllData(Joined(ls) + "\n\n" + more) == DataLines(ls) + AllData(more)
  {
    var e := Joined(ls);
    var all := e + "\n\n" + more;
    EventEnds(ls, more);
    assert all[..|e|] == e && all[|e| + 2..] == more;
    LinesSplit(ls);
    TextsRead(ls);
  }

  /** Every event is read, each data line of it, in order; what is not complete yet is not. */
  lemma {:induction false} EventsRead(events: seq<seq<Line>>, rest: string)
    requires (forall i | 0 <= i < |events| :: Proper(events[i])) && Gap(rest, 0) < 0
    ensures AllData(Wire(events) + rest) == AllDataLines(events)
    decreases |events|
  {
    if events == [] {
      assert Wire(events) + rest == rest;
    } else {
      var more := Wire(events[1..]) + rest;
      assert Wire(events) + rest == Joined(events[0]) + "\n\n" + more;
      FirstEvent(events[0], more);
      EventsRead(events[1..], rest);
    }
  }

  // ---- chunks ----

  /** The first choice of a chunk, if it has one and carries no error. */
  function FirstChoice(env: Env, data: string): Option<Choice> {
    if !Heard(env, data) then None
    else
      var c := env.decode(data).value;
      if c.error.Some? || c.choices == [] then None else Some(c.choices[0])
  }

  /** The first choices of the chunks, up to the chunk that ends the answer. */
  function Choices(env: Env, ds: seq<string>): seq<Choice> {
    if ds == [] then []
    else
      var before, ch := ds[..|ds| - 1], FirstChoice(env, ds[|ds| - 1]);
      Choices(env, before) + if Over(env, before) || ch.None? then [] else [ch.value]
  }

  /** The content fields, joined. */
  function Contents(chs: seq<Choice>): string {
    if chs == [] then ""
    else
      var content := chs[|chs| - 1].content;
      Contents(chs[..|chs| - 1]) + if content.Some? then content.value else ""
  }

  /** A tool call at place `k` of its choice is a fragment of call `idx`: it says so, or it says nothing and
      stands there. */
  predicate Belongs(tc: ToolCall, k: nat, idx: int) {
    tc.index == Some(idx) || (tc.index.None? && k == idx)
  }

  /** The fragments of call `idx` among the first `n` tool calls of a choice. */
  function Within(tcs: seq<ToolCall>, n: nat, idx: int): seq<ToolCall>
    requires n <= |tcs|
  {
    if n == 0 then []
    else Within(tcs, n - 1, idx) + if Belongs(tcs[n - 1], n - 1, idx) then [tcs[n - 1]] else []
  }

  /** All fragments of call `idx`, in order. */
  function Fragments(chs: seq<Choice>, idx: int): seq<ToolCall> {
    if chs == [] then []
    else
      var tcs := chs[|chs| - 1].toolCalls;
      Fragments(chs[..|chs| - 1], idx) + Within(tcs, |tcs|, idx)
  }

  /** Their arguments fields, joined. */
  function Arguments(fs: seq<ToolCall>): string {
    if fs == [] then "" else Arguments(fs[..|fs| - 1]) + fs[|fs| - 1].arguments
  }

  // ---- the translator reads the fields so ----

  /** The fragments of call `idx` among the pieces. */
  function Calls(ps: seq<Piece>, idx: int): seq<Piece> {
    if ps == [] then [] else Calls(ps[..|ps| - 1], idx) + if OfCall(ps[|ps| - 1], idx) then [ps[|ps| - 1]] else []
  }

  function AsPieces(fs: seq<ToolCall>, idx: int): (ps: seq<Piece>)
    ensures |ps| == |fs|
  {
    seq(|fs|, i requires 0 <= i < |fs| => Call(idx, fs[i].id, fs[i].name, fs[i].arguments))
  }

  lemma AsPiecesConcat(a: seq<ToolCall>, b: seq<ToolCall>, idx: int)
    ensures AsPieces(a + b, idx) == AsPieces(a, idx) + AsPieces(b, idx)
  {
  }

  lemma {:induction false} CallsConcat(a: seq<Piece>, b: seq<Piece>, idx: int)
    ensures Calls(a + b, idx) == Calls(a, idx) + Calls(b, idx)
  {
    if b == [] {
      assert a + b == a;
    } else {
      CallsConcat(a, b[..|b| - 1], idx);
      assert (a + b)[..|a + b| - 1] == a + b[..|b| - 1];
    }
  }

  lemma {:induction false} WordsConcat(a: seq<Piece>, b: seq<Piece>)
    ensures WordsOf(a + b) == WordsOf(a) + WordsOf(b)
  {
    if b == [] {
      assert a + b == a;
    } else {
      WordsConcat(a, b[..|b| - 1]);
      assert (a + b)[..|a + b| - 1] == a + b[..|b| - 1];
    }
  }

  lemma {:induction false} CallPiecesRead(tcs: seq<ToolCall>, n: nat, idx: int)
    requires n <= |tcs|
    ensures Calls(CallPieces(tcs, n), idx) == AsPieces(Within(tcs, n, idx), idx) && WordsOf(CallPieces(tcs, n)) == ""
  {
    if 0 < n {
      CallPiecesRead(tcs, n - 1, idx);
      var before, tc := CallPieces(tcs, n - 1), tcs[n - 1];
      var one := [CallPiece(tc, n - 1)];
      assert one[..0] == [];
      CallsConcat(before, one, idx);
      WordsConcat(before, one);
      var fs := if Belongs(tc, n - 1, idx) then [tc] else [];
      assert Calls(one, idx) == AsPieces(fs, idx);
      AsPiecesConcat(Within(tcs, n - 1, idx), fs, idx);
    }
  }

  lemma ChoiceRead(ch: Choice, idx: int)
    ensures Calls(Pieces(ch), idx) == AsPieces(Within(ch.toolCalls, |ch.toolCalls|, idx), idx)
    ensures WordsOf(Pieces(ch)) == if ch.content.Some? then ch.content.value else ""
  {
    var ws, cs := WordPieces(ch.content), CallPieces(ch.toolCalls, |ch.toolCalls|);
    CallPiecesRead(ch.toolCalls, |ch.toolCalls|, idx);
    CallsConcat(ws, cs, idx);
    WordsConcat(ws, cs);
    if ws != [] {
      assert ws[..0] == [];
    }
  }

  lemma {:induction false} CallPieceAt(tcs: seq<ToolCall>, n: nat, k: nat)
    requires k < n <= |tcs|
    ensures |CallPieces(tcs, n)| == n && CallPieces(tcs, n)[k].Call?
    ensures var p, tc := CallPieces(tcs, n)[k], tcs[k];
            Belongs(tc, k, p.idx) && p.id == tc.id && p.name == tc.name && p.args == tc.arguments
  {
    if 1 < n {
      CallPieceAt(tcs, n - 1, if k < n - 1 then k else 0);
    }
  }

  /** The pieces of a choice are its content, if it is not empty, and then its tool calls in order. */
  lemma InOrder(ch: Choice, k: nat)
    requires k < |ch.toolCalls|
    ensures var ps, tc := Pieces(ch), ch.toolCalls[k];
            var w := if ch.content.None? || ch.content.value == "" then 0 else 1;
            && |ps| == w + |ch.toolCalls| && ps[w + k].Call? && Belongs(tc, k, ps[w + k].idx)
            && (0 < w ==> ps[0] == Words(ch.content.value))
            && ps[w + k].id == tc.id && ps[w + k].name == tc.name && ps[w + k].args == tc.arguments
  {
    CallPieceAt(ch.toolCalls, |ch.toolCalls|, k);
  }

  lemma FragmentsMore(chs: seq<Choice>, ch: Choice, idx: int)
    ensures Fragments(chs + [ch], idx) == Fragments(chs, idx) + Within(ch.toolCalls, |ch.toolCalls|, idx)
    ensures Contents(chs + [ch]) == Contents(chs) + if ch.content.Some? then ch.content.value else ""
  {
    assert (chs + [ch])[..|chs|] == chs;
  }

  lemma {:induction false} SaidRead(env: Env, ds: seq<string>, idx: int)
    ensures Calls(Said(env, ds), idx) == AsPieces(Fragments(Choices(env, ds), idx), idx)
    ensures WordsOf(Said(env, ds)) == Contents(Choices(env, ds))
  {
    if ds != [] {
      var before, d := ds[..|ds| - 1], ds[|ds| - 1];
      SaidRead(env, before, idx);
      var ps, chs := Said(env, before), Choices(env, before);
      if Over(env, before) || FirstChoice(env, d).None? {
        assert Said(env, ds) == ps + [] == ps && Choices(env, ds) == chs + [] == chs;
      } else {
        var ch := FirstChoice(env, d).value;
        ChoiceRead(ch, idx);
        CallsConcat(ps, Pieces(ch), idx);
        WordsConcat(ps, Pieces(ch));
        FragmentsMore(chs, ch, idx);
        AsPiecesConcat(Fragments(chs, idx), Within(ch.toolCalls, |ch.toolCalls|, idx), idx);
      }
    }
  }

  // ---- what the message carries ----

  function ArgsIn(ps: seq<Piece>): string
    requires forall i | 0 <= i < |ps| :: ps[i].Call?
  {
    if ps == [] then "" else ArgsIn(ps[..|ps| - 1]) + ps[|ps| - 1].args
  }

  lemma {:induction false} ArgsInPieces(fs: seq<ToolCall>, idx: int)
    ensures ArgsIn(AsPieces(fs, idx)) == Arguments(fs)
  {
    if fs != [] {
      ArgsInPieces(fs[..|fs| - 1], idx);
      assert AsPieces(fs, idx)[..|fs| - 1] == AsPieces(fs[..|fs| - 1], idx);
    }
  }

  lemma ArgsInParts(fs: seq<ToolCall>, idx: int, k: nat)
    requires k <= |fs|
    ensures ArgsIn(AsPieces(fs, idx)[..k]) == Arguments(fs[..k])
    ensures ArgsIn(AsPieces(fs, idx)[k..]) == Arguments(fs[k..])
  {
    ArgsInPieces(fs[..k], idx);
    ArgsInPieces(fs[k..], idx);
    assert AsPieces(fs, idx)[..k] == AsPieces(fs[..k], idx);
    assert AsPieces(fs, idx)[k..] == AsPieces(fs[k..], idx);
  }

  lemma ArgsMore(ps: seq<Piece>, p: Piece)
    requires p.Call? && forall i | 0 <= i < |ps| :: ps[i].Call?
    ensures ArgsIn(ps + [p]) == ArgsIn(ps) + p.args
  {
    assert (ps + [p])[..|ps|] == ps;
  }

  lemma {:induction false} FirstOfCalls(ps: seq<Piece>, idx: int)
    ensures FirstOf(ps, idx) == if Calls(ps, idx) == [] then None else Some(Calls(ps, idx)[0])
  {
    if ps != [] {
      FirstOfCalls(ps[..|ps| - 1], idx);
    }
  }

  /** The first `k` of the fragments are kept and the others are lost. */
  ghost predicate SplitAt(ps: seq<Piece>, idx: int, k: nat) {
    var cs := Calls(ps, idx);
    && k <= |cs| && (!CallOf(ps, idx).Sealed? ==> k == |cs|)
    && (forall i | 0 <= i < |cs| :: cs[i].Call?)
    && CallOf(ps, idx).Text() == ArgsIn(cs[..k]) && Lost(ps, idx) == ArgsIn(cs[k..])
  }

  lemma LostMore(ps: seq<Piece>, p: Piece, idx: int, k: nat)
    requires SplitAt(ps, idx, k) && OfCall(p, idx) && CallOf(ps, idx).Sealed?
    ensures SplitAt(ps + [p], idx, k)
  {
    var cs, all := Calls(ps, idx), ps + [p];
    assert all[..|ps|] == ps;
    assert (cs + [p])[..k] == cs[..k] && (cs + [p])[k..] == cs[k..] + [p];
    ArgsMore(cs[k..], p);
  }

  lemma KeptMore(ps: seq<Piece>, p: Piece, idx: int)
    requires SplitAt(ps, idx, |Calls(ps, idx)|) && OfCall(p, idx) && !CallOf(ps, idx).Sealed?
    ensures SplitAt(ps + [p], idx, |Calls(ps, idx)| + 1)
  {
    var cs, all := Calls(ps, idx), ps + [p];
    assert all[..|ps|] == ps && cs[..|cs|] == cs;
    assert (cs + [p])[..|cs| + 1] == cs + [p];
    ArgsMore(cs, p);
  }

  lemma OtherSplit(ps: seq<Piece>, p: Piece, idx: int, k: nat)
    requires SplitAt(ps, idx, k) && !OfCall(p, idx)
    ensures SplitAt(ps + [p], idx, k)
  {
    var all := ps + [p];
    assert all[..|ps|] == ps;
    assert Calls(all, idx) == Calls(ps, idx);
  }

  /** A call's block keeps its first fragments and loses the others. */
  lemma {:induction false} KeptCalls(ps: seq<Piece>, idx: int) returns (k: nat)
    ensures SplitAt(ps, idx, k)
  {
    k := 0;
    if ps != [] {
      var before, p := ps[..|ps| - 1], ps[|ps| - 1];
      k := KeptCalls(before, idx);
      assert ps == before + [p];
      if !OfCall(p, idx) {
        OtherSplit(before, p, idx, k);
      } else if CallOf(before, idx).Sealed? {
        LostMore(before, p, idx, k);
      } else {
        KeptMore(before, p, idx);
        k := k + 1;
      }
    }
  }

  /** The text deltas join to the content fields of the first choices. */
  lemma ContentsDelivered(env: Env, bytes: string)
    ensures TextOf(Drain(env, FRESH, bytes).0.out) == Contents(Choices(env, AllData(bytes)))
  {
    TextConserved(env, bytes);
    SaidRead(env, AllData(bytes), 0);
  }

  /** The input_json deltas of block `b` join to the arguments of the first `k` fragments. */
  ghost predicate Kept(out: seq<Event>, b: int, fs: seq<ToolCall>, k: nat) {
    k <= |fs| && JsonAt(out, b) == Arguments(fs[..k])
  }

  /** The pieces of a call, cut where its block was closed, are its fragments cut there. */
  lemma FragmentsSplit(env: Env, ds: seq<string>, idx: int, k: nat)
    requires SplitAt(Said(env, ds), idx, k)
    ensures var ps, fs := Said(env, ds), Fragments(Choices(env, ds), idx);
            && k <= |fs| && CallOf(ps, idx).Text() == Arguments(fs[..k]) && Lost(ps, idx) == Arguments(fs[k..])
  {
    SaidRead(env, ds, idx);
    ArgsInParts(Fragments(Choices(env, ds), idx), idx, k);
  }

  /** The block of a call is announced under its first fragment. */
  lemma FirstAnnounced(env: Env, bytes: string, idx: int)
    ensures var s, fs := Drain(env, FRESH, bytes).0, Fragments(Choices(env, AllData(bytes)), idx);
            && (idx in s.toolBlock <==> fs != [])
            && (fs != [] ==>
                  var id := if fs[0].id == "" then Drawn else Given(fs[0].id);
                  BlockStart(s.toolBlock[idx], ToolBlock(id, fs[0].name)) in s.out)
  {
    FirstOfCalls(Said(env, AllData(bytes)), idx);
    SaidRead(env, AllData(bytes), idx);
    CallsNamed(env, bytes, idx);
  }

  /** A call has a block exactly when some first choice has a fragment of it. The block starts with the id and
      name of the first fragment and keeps the first `k` of them; the others are what is lost. */
  lemma CallDelivered(env: Env, bytes: string, idx: int) returns (k: nat)
    ensures var s, fs := Drain(env, FRESH, bytes).0, Fragments(Choices(env, AllData(bytes)), idx);
            && (idx in s.toolBlock <==> fs != [])
            && (fs != [] ==>
                  && var id := if fs[0].id == "" then Drawn else Given(fs[0].id);
                  && BlockStart(s.toolBlock[idx], ToolBlock(id, fs[0].name)) in s.out
                  && Kept(s.out, s.toolBlock[idx], fs, k)
                  && Lost(Said(env, AllData(bytes)), idx) == Arguments(fs[k..]))
  {
    k := KeptCalls(Said(env, AllData(bytes)), idx);
    FragmentsSplit(env, AllData(bytes), idx, k);
    FirstAnnounced(env, bytes, idx);
    FoldCarried(env, AllData(bytes));
    DrainIsFold(env, FRESH, bytes);
  }
}
