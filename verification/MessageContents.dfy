/** What the translator conserves: the text of the stream, and the arguments of its tool calls. */
module MessageContents {
  import opened Text
  import opened Sequences
  import opened MessageStream

  // ---- what a chat stream says ----

  /** The data lines of every complete event. */
  function AllData(buf: string): seq<string>
    decreases |buf|
  {
    var i := Gap(buf, 0);
    if i < 0 then [] else DataOf(buf[..i]) + AllData(buf[i + 2..])
  }

  function PiecesIn(env: Env, data: string): seq<Piece> {
    if data == "[DONE]" || env.decode(data).None? then []
    else
      var c := env.decode(data).value;
      if c.error.Some? || c.choices == [] then [] else Pieces(c.choices[0])
  }

  /** A chunk that ends the answer: an error, or a finish reason. */
  predicate Ends(env: Env, data: string) {
    data != "[DONE]" && env.decode(data).Some? &&
    var c := env.decode(data).value;
    c.error.Some? || (c.choices != [] && c.choices[0].finishReason.Some?)
  }

  predicate Over(env: Env, ds: seq<string>) {
    ds != [] && (Over(env, ds[..|ds| - 1]) || Ends(env, ds[|ds| - 1]))
  }

  /** Everything the stream says up to its end, in order. */
  function Said(env: Env, ds: seq<string>): seq<Piece> {
    if ds == [] then []
    else
      var before := ds[..|ds| - 1];
      Said(env, before) + if Over(env, before) then [] else PiecesIn(env, ds[|ds| - 1])
  }

  function WordsOf(ps: seq<Piece>): string {
    if ps == [] then ""
    else WordsOf(ps[..|ps| - 1]) + if ps[|ps| - 1].Words? then ps[|ps| - 1].text else ""
  }

  /** All argument fragments of call `idx`. */
  function ArgsOf(ps: seq<Piece>, idx: int): string {
    if ps == [] then ""
    else
      var p := ps[|ps| - 1];
      ArgsOf(ps[..|ps| - 1], idx) + if p.Call? && p.idx == idx then p.args else ""
  }

  predicate OfCall(p: Piece, idx: int) {
    p.Call? && p.idx == idx
  }

  predicate Mentions(ps: seq<Piece>, idx: int) {
    exists i | 0 <= i < |ps| :: OfCall(ps[i], idx)
  }

  /** What becomes of call `idx`: its block takes its fragments until another block starts. */
  datatype CallState = Absent | Filling(text: string) | Sealed(text: string) {
    function Text(): string {
      if Absent? then "" else text
    }
    function Seal(): CallState {
      if Filling? then Sealed(text) else this
    }
  }

  function CallOf(ps: seq<Piece>, idx: int): CallState {
    if ps == [] then Absent
    else
      var before := ps[..|ps| - 1];
      var c := CallOf(before, idx);
      match ps[|ps| - 1]
      case Words(_) => c.Seal()
      case Call(j, _, _, args) =>
        if j == idx then
          match c { case Absent => Filling(args) case Filling(t) => Filling(t + args) case Sealed(_) => c }
        else if CallOf(before, j).Absent? then c.Seal()
        else c
  }

  /** The fragments of call `idx` that come after its block was closed. */
  function Lost(ps: seq<Piece>, idx: int): string {
    if ps == [] then ""
    else
      var before, p := ps[..|ps| - 1], ps[|ps| - 1];
      Lost(before, idx) + if p.Call? && p.idx == idx && CallOf(before, idx).Sealed? then p.args else ""
  }

  // ---- what the events carry ----

  function TextOf(out: seq<Event>): string {
    if out == [] then ""
    else TextOf(out[..|out| - 1]) + if out[|out| - 1].TextDelta? then out[|out| - 1].text else ""
  }

  /** The input_json deltas of block `k`, joined. */
  function JsonAt(out: seq<Event>, k: int): string {
    if out == [] then ""
    else
      var e := out[|out| - 1];
      JsonAt(out[..|out| - 1], k) + if e.JsonDelta? && e.index == k then e.json else ""
  }

  lemma Emitted(s: Stream, e: Event, k: int)
    ensures TextOf(Emit(s, e).out) == TextOf(s.out) + if e.TextDelta? then e.text else ""
    ensures JsonAt(Emit(s, e).out, k) == JsonAt(s.out, k) + if e.JsonDelta? && e.index == k then e.json else ""
  {
    assert (s.out + [e])[..|s.out|] == s.out;
  }

  lemma Silent(s: Stream, e: Event)
    requires !e.TextDelta? && !e.JsonDelta?
    ensures TextOf(Emit(s, e).out) == TextOf(s.out)
    ensures forall k :: JsonAt(Emit(s, e).out, k) == JsonAt(s.out, k)
  {
    Emitted(s, e, 0);
    forall k ensures JsonAt(Emit(s, e).out, k) == JsonAt(s.out, k) {
      Emitted(s, e, k);
    }
  }

  // ---- the invariant ----

  ghost predicate Carries(s: Stream, ps: seq<Piece>) {
    && TextOf(s.out) == WordsOf(ps)
    && (forall idx: int :: idx in s.toolBlock <==> !CallOf(ps, idx).Absent?)
    && (forall idx | idx in s.toolBlock ::
          0 <= s.toolBlock[idx] < s.next && JsonAt(s.out, s.toolBlock[idx]) == CallOf(ps, idx).Text())
    && (forall i, j | i in s.toolBlock && j in s.toolBlock && i != j :: s.toolBlock[i] != s.toolBlock[j])
    && (forall k | s.next <= k :: JsonAt(s.out, k) == "")
  }

  ghost predicate Current(s: Stream, ps: seq<Piece>) {
    && s.open < s.next && (s.openText ==> 0 <= s.open)
    && (forall idx | idx in s.toolBlock ::
          && (CallOf(ps, idx).Filling? <==> s.toolBlock[idx] == s.open)
          && (s.openText ==> s.toolBlock[idx] != s.open))
  }

  /** Closing a block and opening the next carries nothing. */
  lemma NewBlockSilent(s: Stream, kind: Kind)
    ensures var s' := OpenBlock(CloseBlock(s), kind);
            && TextOf(s'.out) == TextOf(s.out) && (forall k :: JsonAt(s'.out, k) == JsonAt(s.out, k))
            && s'.open == s.next && s'.next == s.next + 1 && s'.toolBlock == s.toolBlock
            && s'.openText == kind.TextBlock? && s'.finished == s.finished
  {
    if 0 <= s.open {
      Silent(s, BlockStop(s.open));
    }
    Silent(CloseBlock(s), BlockStart(s.next, kind));
  }

  lemma TextWritten(s: Stream, text: string)
    ensures var s' := WritePiece(s, Words(text));
            && TextOf(s'.out) == TextOf(s.out) + text && (forall k :: JsonAt(s'.out, k) == JsonAt(s.out, k))
            && s'.toolBlock == s.toolBlock && s'.openText
            && (if s.openText then s'.open == s.open && s'.next == s.next
                else s'.open == s.next && s'.next == s.next + 1)
  {
    var o := if s.openText then s else OpenBlock(CloseBlock(s), TextBlock);
    if !s.openText {
      NewBlockSilent(s, TextBlock);
    }
    forall k ensures JsonAt(Emit(o, TextDelta(o.open, text)).out, k) == JsonAt(o.out, k) {
      Emitted(o, TextDelta(o.open, text), k);
    }
    Emitted(o, TextDelta(o.open, text), 0);
  }

  lemma WordsCarried(s: Stream, ps: seq<Piece>, text: string)
    requires Carries(s, ps) && Current(s, ps)
    ensures Carries(WritePiece(s, Words(text)), ps + [Words(text)])
    ensures Current(WritePiece(s, Words(text)), ps + [Words(text)])
  {
    var ps' := ps + [Words(text)];
    assert ps'[..|ps|] == ps;
    assert forall idx :: CallOf(ps', idx) == CallOf(ps, idx).Seal();
    TextWritten(s, text);
  }

  /** A fragment of a call whose block is closed is dropped. */
  lemma LateCarried(s: Stream, ps: seq<Piece>, p: Piece)
    requires Carries(s, ps) && Current(s, ps) && p.Call? && p.idx in s.toolBlock && s.toolBlock[p.idx] != s.open
    ensures WritePiece(s, p) == s && Carries(s, ps + [p]) && Current(s, ps + [p])
  {
    assert (ps + [p])[..|ps|] == ps;
    assert forall idx :: CallOf(ps + [p], idx) == CallOf(ps, idx);
  }

  lemma NextWritten(s: Stream, p: Piece)
    requires p.Call? && p.idx in s.toolBlock && s.toolBlock[p.idx] == s.open
    ensures var s' := WritePiece(s, p);
            && s' == s.(out := s'.out) && TextOf(s'.out) == TextOf(s.out)
            && forall k :: JsonAt(s'.out, k) == JsonAt(s.out, k) + if k == s.open then p.args else ""
  {
    if p.args == "" {
      assert WritePiece(s, p) == s;
    } else {
      var e := JsonDelta(s.open, p.args);
      forall k ensures JsonAt(Emit(s, e).out, k) == JsonAt(s.out, k) + if k == s.open then p.args else "" {
        Emitted(s, e, k);
      }
      Emitted(s, e, 0);
    }
  }

  lemma NextCall(ps: seq<Piece>, p: Piece)
    requires p.Call? && CallOf(ps, p.idx).Filling?
    ensures forall idx | idx != p.idx :: CallOf(ps + [p], idx) == CallOf(ps, idx)
    ensures CallOf(ps + [p], p.idx) == Filling(CallOf(ps, p.idx).text + p.args)
    ensures WordsOf(ps + [p]) == WordsOf(ps)
  {
    assert (ps + [p])[..|ps|] == ps;
  }

  lemma NextCarried(s: Stream, ps: seq<Piece>, p: Piece)
    requires Carries(s, ps) && Current(s, ps) && p.Call? && p.idx in s.toolBlock && s.toolBlock[p.idx] == s.open
    ensures Carries(WritePiece(s, p), ps + [p]) && Current(WritePiece(s, p), ps + [p])
  {
    NextWritten(s, p);
    NextCall(ps, p);
  }

  /** The call's block is open and still empty. */
  function WithCall(s: Stream, p: Piece): Stream
    requires p.Call?
  {
    var o := OpenBlock(CloseBlock(s), ToolBlock(if p.id == "" then Drawn else Given(p.id), p.name));
    o.(toolBlock := o.toolBlock[p.idx := o.open])
  }

  lemma NewCall(ps: seq<Piece>, p: Piece)
    requires p.Call? && CallOf(ps, p.idx).Absent?
    ensures forall idx | idx != p.idx :: CallOf(ps + [p], idx) == CallOf(ps, idx).Seal()
    ensures CallOf(ps + [p], p.idx) == Filling(p.args)
    ensures WordsOf(ps + [p]) == WordsOf(ps)
  {
    assert (ps + [p])[..|ps|] == ps;
  }

  /** Opening the block of a new call keeps what the other blocks carry. */
  lemma WithCallCarries(s: Stream, ps: seq<Piece>, p: Piece)
    requires Carries(s, ps) && p.Call? && p.idx !in s.toolBlock
    ensures var t := WithCall(s, p);
            && TextOf(t.out) == WordsOf(ps) && JsonAt(t.out, t.open) == ""
            && t.open == s.next && t.next == s.next + 1 && !t.openText && t.toolBlock == s.toolBlock[p.idx := t.open]
            && (forall idx | idx in s.toolBlock :: JsonAt(t.out, s.toolBlock[idx]) == CallOf(ps, idx).Text())
            && (forall k | t.next <= k :: JsonAt(t.out, k) == "")
  {
    NewBlockSilent(s, ToolBlock(if p.id == "" then Drawn else Given(p.id), p.name));
  }

  lemma ArgsWritten(s: Stream, p: Piece)
    requires p.Call? && p.idx !in s.toolBlock && WithCall(s, p).open == s.next
    ensures var t, s' := WithCall(s, p), WritePiece(s, p);
            && TextOf(s'.out) == TextOf(t.out) && s'.next == t.next && s'.toolBlock == t.toolBlock
            && forall k :: JsonAt(s'.out, k) == JsonAt(t.out, k) + if k == s.next then p.args else ""
  {
    var t, e := WithCall(s, p), JsonDelta(s.next, p.args);
    forall k ensures JsonAt(Emit(t, e).out, k) == JsonAt(t.out, k) + if k == s.next then p.args else "" {
      Emitted(t, e, k);
    }
    Emitted(t, e, 0);
    assert WritePiece(s, p) == if p.args == "" then t else Emit(t, e);
  }

  lemma FirstWritten(s: Stream, ps: seq<Piece>, p: Piece)
    requires Carries(s, ps) && p.Call? && p.idx !in s.toolBlock
    ensures var s' := WritePiece(s, p);
            && TextOf(s'.out) == WordsOf(ps) && JsonAt(s'.out, s.next) == p.args
            && s'.next == s.next + 1 && s'.toolBlock == s.toolBlock[p.idx := s.next]
            && (forall idx | idx in s.toolBlock :: JsonAt(s'.out, s.toolBlock[idx]) == CallOf(ps, idx).Text())
            && (forall k | s'.next <= k :: JsonAt(s'.out, k) == "")
  {
    WithCallCarries(s, ps, p);
    ArgsWritten(s, p);
  }

  lemma CarriesFirst(s: Stream, s': Stream, ps: seq<Piece>, p: Piece)
    requires Carries(s, ps) && p.Call? && p.idx !in s.toolBlock
    requires TextOf(s'.out) == WordsOf(ps) && JsonAt(s'.out, s.next) == p.args
    requires s'.next == s.next + 1 && s'.toolBlock == s.toolBlock[p.idx := s.next]
    requires forall idx | idx in s.toolBlock :: JsonAt(s'.out, s.toolBlock[idx]) == CallOf(ps, idx).Text()
    requires forall k | s'.next <= k :: JsonAt(s'.out, k) == ""
    ensures Carries(s', ps + [p])
  {
    NewCall(ps, p);
    var ps' := ps + [p];
    forall idx: int ensures idx in s'.toolBlock <==> !CallOf(ps', idx).Absent? {
      assert idx in s'.toolBlock <==> idx == p.idx || idx in s.toolBlock;
    }
    forall idx | idx in s'.toolBlock
      ensures 0 <= s'.toolBlock[idx] < s'.next && JsonAt(s'.out, s'.toolBlock[idx]) == CallOf(ps', idx).Text()
    {
      if idx != p.idx {
        assert s'.toolBlock[idx] == s.toolBlock[idx];
      }
    }
  }

  lemma FirstCarried(s: Stream, ps: seq<Piece>, p: Piece)
    requires Carries(s, ps) && p.Call? && p.idx !in s.toolBlock
    ensures Carries(WritePiece(s, p), ps + [p])
  {
    FirstWritten(s, ps, p);
    CarriesFirst(s, WritePiece(s, p), ps, p);
  }

  lemma FirstCurrent(s: Stream, ps: seq<Piece>, p: Piece)
    requires Carries(s, ps) && p.Call? && p.idx !in s.toolBlock
    ensures Current(WritePiece(s, p), ps + [p])
  {
    NewCall(ps, p);
    var s' := WritePiece(s, p);
    assert s'.open == s.next && s'.next == s.next + 1 && !s'.openText && s'.toolBlock == s.toolBlock[p.idx := s.next];
    forall idx | idx in s'.toolBlock ensures CallOf(ps + [p], idx).Filling? <==> s'.toolBlock[idx] == s'.open {
      if idx != p.idx {
        assert s.toolBlock[idx] < s.next;
      }
    }
  }

  lemma PieceCarried(s: Stream, ps: seq<Piece>, p: Piece)
    requires Carries(s, ps) && Current(s, ps)
    ensures Carries(WritePiece(s, p), ps + [p]) && Current(WritePiece(s, p), ps + [p])
  {
    if p.Words? {
      WordsCarried(s, ps, p.text);
    } else if p.idx !in s.toolBlock {
      FirstCarried(s, ps, p);
      FirstCurrent(s, ps, p);
    } else if s.toolBlock[p.idx] == s.open {
      NextCarried(s, ps, p);
    } else {
      LateCarried(s, ps, p);
    }
  }

  lemma {:induction false} PiecesCarried(s: Stream, ps: seq<Piece>, qs: seq<Piece>)
    requires Carries(s, ps) && Current(s, ps)
    ensures Carries(WriteAll(s, qs), ps + qs) && Current(WriteAll(s, qs), ps + qs)
    ensures WriteAll(s, qs).finished == s.finished
  {
    if qs == [] {
      assert ps + qs == ps;
    } else {
      var init, last := qs[..|qs| - 1], qs[|qs| - 1];
      PiecesCarried(s, ps, init);
      PieceCarried(WriteAll(s, init), ps + init, last);
      AppendLast(ps, qs);
    }
  }

  lemma StartCarried(env: Env, s: Stream, ps: seq<Piece>, model: string)
    requires Carries(s, ps) && Current(s, ps)
    ensures Carries(Start(env, s, model), ps) && Current(Start(env, s, model), ps)
    ensures Start(env, s, model).finished == s.finished
  {
    if !s.started {
      var e := MessageStart(if model != "" then model else env.model);
      Silent(s, e);
      Silent(Emit(s, e), Ping);
    }
  }

  lemma CloseSilent(s: Stream)
    ensures var s' := CloseBlock(s);
            && TextOf(s'.out) == TextOf(s.out) && (forall k :: JsonAt(s'.out, k) == JsonAt(s.out, k))
            && s'.next == s.next && s'.toolBlock == s.toolBlock
  {
    if 0 <= s.open {
      Silent(s, BlockStop(s.open));
    }
  }

  lemma FinishSilent(s: Stream, reason: Option<string>, usage: Option<Usage>)
    ensures var s' := Finish(s, reason, usage);
            && TextOf(s'.out) == TextOf(s.out) && (forall k :: JsonAt(s'.out, k) == JsonAt(s.out, k))
            && s'.next == s.next && s'.toolBlock == s.toolBlock
  {
    if reason.Some? {
      CloseSilent(s);
      var c := CloseBlock(s);
      var e := MessageDelta(StopReason(reason.value), usage);
      Silent(c, e);
      Silent(Emit(c, e), MessageStop);
    }
  }

  lemma FinishCarried(s: Stream, ps: seq<Piece>, reason: Option<string>, usage: Option<Usage>)
    requires Carries(s, ps)
    ensures Carries(Finish(s, reason, usage), ps)
  {
    FinishSilent(s, reason, usage);
  }

  lemma StepCarried(env: Env, s: Stream, ps: seq<Piece>, data: string)
    requires Carries(s, ps) && (!s.finished ==> Current(s, ps))
    ensures var s' := Step(env, s, data);
            var ps' := ps + if s.finished then [] else PiecesIn(env, data);
            Carries(s', ps') && (!s'.finished ==> Current(s', ps')) && s'.finished == (s.finished || Ends(env, data))
  {
    assert ps + [] == ps;
    if !s.finished && data != "[DONE]" && env.decode(data).Some? {
      var c := env.decode(data).value;
      if c.error.Some? {
        Silent(s, ErrorEvent(c.error.value));
      } else {
        StartCarried(env, s, ps, c.model);
        if c.choices != [] {
          var qs := Pieces(c.choices[0]);
          PiecesCarried(Start(env, s, c.model), ps, qs);
          FinishCarried(WriteAll(Start(env, s, c.model), qs), ps + qs, c.choices[0].finishReason, c.usage);
        }
      }
    }
  }

  lemma {:induction false} FoldCarried(env: Env, ds: seq<string>)
    ensures var s := Fold(env, FRESH, ds);
            Carries(s, Said(env, ds)) && (!s.finished ==> Current(s, Said(env, ds))) && s.finished == Over(env, ds)
  {
    if ds != [] {
      var before := ds[..|ds| - 1];
      FoldCarried(env, before);
      StepCarried(env, Fold(env, FRESH, before), Said(env, before), ds[|ds| - 1]);
    }
  }

  lemma {:induction false} FoldConcat(env: Env, s: Stream, a: seq<string>, b: seq<string>)
    ensures Fold(env, s, a + b) == Fold(env, Fold(env, s, a), b)
  {
    if b == [] {
      assert a + b == a;
    } else {
      FoldConcat(env, s, a, b[..|b| - 1]);
      assert (a + b)[..|a + b| - 1] == a + b[..|b| - 1];
    }
  }

  lemma {:induction false} DrainIsFold(env: Env, s: Stream, buf: string)
    ensures Drain(env, s, buf).0 == Fold(env, s, AllData(buf))
    decreases |buf|
  {
    var i := Gap(buf, 0);
    if 0 <= i {
      var ds, rest := DataOf(buf[..i]), buf[i + 2..];
      DrainIsFold(env, Fold(env, s, ds), rest);
      FoldConcat(env, s, ds, AllData(rest));
      assert AllData(buf) == ds + AllData(rest);
    }
  }

  // ---- what is conserved ----

  /** The text deltas join to exactly the text the stream says, whatever else it says and however its
      bytes arrived. */
  lemma TextConserved(env: Env, bytes: string)
    ensures TextOf(Drain(env, FRESH, bytes).0.out) == WordsOf(Said(env, AllData(bytes)))
  {
    DrainIsFold(env, FRESH, bytes);
    FoldCarried(env, AllData(bytes));
  }

  lemma MentionsMore(ps: seq<Piece>, idx: int)
    requires ps != []
    ensures Mentions(ps, idx) <==> Mentions(ps[..|ps| - 1], idx) || OfCall(ps[|ps| - 1], idx)
  {
    var before := ps[..|ps| - 1];
    assert forall i | 0 <= i < |before| :: ps[i] == before[i];
  }

  lemma {:induction false} AbsentExactly(ps: seq<Piece>, idx: int)
    ensures CallOf(ps, idx).Absent? <==> !Mentions(ps, idx)
  {
    if ps != [] {
      var before, p := ps[..|ps| - 1], ps[|ps| - 1];
      AbsentExactly(before, idx);
      MentionsMore(ps, idx);
    }
  }

  lemma {:induction false} KeptAndLost(ps: seq<Piece>, idx: int)
    ensures CallOf(ps, idx).Text() + Lost(ps, idx) == ArgsOf(ps, idx)
    ensures !CallOf(ps, idx).Sealed? ==> Lost(ps, idx) == ""
  {
    if ps != [] {
      var before, p := ps[..|ps| - 1], ps[|ps| - 1];
      KeptAndLost(before, idx);
      var kept, lost := CallOf(before, idx).Text(), Lost(before, idx);
      if p.Call? && p.idx == idx {
        Regroup(kept, lost, p.args);
        Regroup(kept, p.args, "");
      } else {
        Regroup(lost, "", "");
        Regroup(ArgsOf(before, idx), "", "");
      }
    }
  }

  /** A call's block carries the fragments that came before another block started, and no others; a call
      has a block exactly when the stream mentions it. */
  lemma ArgumentsConserved(env: Env, bytes: string, idx: int)
    ensures var s, ps := Drain(env, FRESH, bytes).0, Said(env, AllData(bytes));
            && (idx in s.toolBlock <==> Mentions(ps, idx))
            && (idx in s.toolBlock ==> JsonAt(s.out, s.toolBlock[idx]) + Lost(ps, idx) == ArgsOf(ps, idx))
  {
    DrainIsFold(env, FRESH, bytes);
    FoldCarried(env, AllData(bytes));
    KeptAndLost(Said(env, AllData(bytes)), idx);
    AbsentExactly(Said(env, AllData(bytes)), idx);
  }

  /** The piece at `k` starts a block: it is text, or the first fragment of its call. */
  predicate Starts(ps: seq<Piece>, k: nat)
    requires k < |ps|
  {
    ps[k].Words? || !Mentions(ps[..k], ps[k].idx)
  }

  /** Something that starts a block came after a fragment of the call. */
  ghost predicate Overtaken(ps: seq<Piece>, idx: int) {
    exists k | 0 <= k < |ps| :: Starts(ps, k) && Mentions(ps[..k], idx)
  }

  lemma OvertakenMore(ps: seq<Piece>, idx: int)
    requires ps != []
    ensures var n := |ps| - 1;
            Overtaken(ps, idx) <==> Overtaken(ps[..n], idx) || (Starts(ps, n) && Mentions(ps[..n], idx))
  {
    var n := |ps| - 1;
    var before := ps[..n];
    forall k | 0 <= k < n ensures before[..k] == ps[..k] && Starts(before, k) == Starts(ps, k) {
      assert before[..k] == ps[..k];
    }
    if Overtaken(before, idx) {
      var k :| 0 <= k < n && Starts(before, k) && Mentions(before[..k], idx);
      assert Starts(ps, k) && Mentions(ps[..k], idx);
    }
  }

  lemma {:induction false} SealedExactly(ps: seq<Piece>, idx: int)
    ensures CallOf(ps, idx).Sealed? <==> Overtaken(ps, idx)
  {
    if ps != [] {
      var before, p := ps[..|ps| - 1], ps[|ps| - 1];
      SealedExactly(before, idx);
      OvertakenMore(ps, idx);
      AbsentExactly(before, idx);
      if p.Call? {
        AbsentExactly(before, p.idx);
      }
    }
  }

  ghost predicate Late(ps: seq<Piece>, j: nat, idx: int)
    requires j < |ps|
  {
    OfCall(ps[j], idx) && ps[j].args != "" && Overtaken(ps[..j], idx)
  }

  /** A fragment with text in it that comes after its call was overtaken. */
  ghost predicate HasLate(ps: seq<Piece>, idx: int) {
    exists j | 0 <= j < |ps| :: Late(ps, j, idx)
  }

  lemma LateMore(ps: seq<Piece>, idx: int)
    requires ps != []
    ensures var n := |ps| - 1; HasLate(ps, idx) <==> HasLate(ps[..n], idx) || Late(ps, n, idx)
  {
    var n := |ps| - 1;
    var before := ps[..n];
    forall k | 0 <= k < n ensures Late(before, k, idx) == Late(ps, k, idx) {
      assert before[..k] == ps[..k];
    }
    if HasLate(before, idx) {
      var j :| 0 <= j < n && Late(before, j, idx);
      assert Late(ps, j, idx);
    }
  }

  /** Exactly when something of a call is lost: a later block overtook it and more of it came after. */
  lemma {:induction false} LostExactly(ps: seq<Piece>, idx: int)
    ensures Lost(ps, idx) != "" <==> HasLate(ps, idx)
  {
    if ps != [] {
      LostExactly(ps[..|ps| - 1], idx);
      SealedExactly(ps[..|ps| - 1], idx);
      LateMore(ps, idx);
    }
  }

  /** A call's deltas join to exactly its arguments when, and only when, no fragment of it is late. */
  lemma ArgumentsWhole(env: Env, bytes: string, idx: int)
    ensures var s, ps := Drain(env, FRESH, bytes).0, Said(env, AllData(bytes));
            idx in s.toolBlock ==> (JsonAt(s.out, s.toolBlock[idx]) == ArgsOf(ps, idx) <==> !HasLate(ps, idx))
  {
    ArgumentsConserved(env, bytes, idx);
    LostExactly(Said(env, AllData(bytes)), idx);
  }

  /** Fragments that arrive with nothing between them are never late. */
  lemma ContiguousLosesNothing(ps: seq<Piece>, idx: int)
    requires forall i, j, k | 0 <= i <= j <= k < |ps| :: OfCall(ps[i], idx) && OfCall(ps[k], idx) ==> OfCall(ps[j], idx)
    ensures !HasLate(ps, idx)
  {
    forall j | 0 <= j < |ps| ensures !Late(ps, j, idx) {
      if OfCall(ps[j], idx) {
        forall k | 0 <= k < j ensures !(Starts(ps[..j], k) && Mentions(ps[..j][..k], idx)) {
          if Mentions(ps[..j][..k], idx) {
            var i :| 0 <= i < k && OfCall(ps[..j][..k][i], idx);
            assert OfCall(ps[i], idx) && OfCall(ps[k], idx);
          }
        }
      }
    }
  }

  lemma FirstJson(o1: seq<Event>, o2: seq<Event>)
    requires o1 == [BlockStart(0, ToolBlock(Given("a"), "f")), JsonDelta(0, "1")]
    requires o2 == [BlockStop(0), BlockStart(1, ToolBlock(Given("b"), "g")), JsonDelta(1, "2")]
    ensures JsonAt(o1 + o2, 0) == "1"
  {
    var o := o1 + o2;
    assert o[..4][..3] == o[..3] && o[..3][..2] == o[..2] && o[..2][..1] == o[..1] && o[..1][..0] == [];
    assert JsonAt(o[..1], 0) == "" + "" == "";
    assert JsonAt(o[..2], 0) == "" + "1" == "1";
    assert JsonAt(o[..3], 0) == "1" + "" && JsonAt(o[..4], 0) == "1" + "" && JsonAt(o, 0) == "1" + "";
  }

  lemma InterleavedWritten(p1: seq<Piece>, p2: seq<Piece>, p3: seq<Piece>)
    requires p1 == [Call(0, "a", "f", "1")] && p2 == p1 + [Call(1, "b", "g", "2")]
    requires p3 == p2 + [Call(0, "a", "f", "3")]
    ensures WriteAll(FRESH, p3).out ==
            [BlockStart(0, ToolBlock(Given("a"), "f")), JsonDelta(0, "1"), BlockStop(0),
             BlockStart(1, ToolBlock(Given("b"), "g")), JsonDelta(1, "2")]
    ensures JsonAt(WriteAll(FRESH, p3).out, 0) == "1"
  {
    assert p3[..2] == p2 && p2[..1] == p1 && p1[..0] == [];
    var s1, s2 := WriteAll(FRESH, p1), WriteAll(FRESH, p2);
    var o1 := [BlockStart(0, ToolBlock(Given("a"), "f")), JsonDelta(0, "1")];
    var o2 := [BlockStop(0), BlockStart(1, ToolBlock(Given("b"), "g")), JsonDelta(1, "2")];
    OnePiece(FRESH, Call(0, "a", "f", "1"));
    assert s1.out == o1 && s1.toolBlock == map[0 := 0] && s1.open == 0 && s1.next == 1;
    assert s2.out == o1 + o2 && s2.toolBlock[0] == 0 && s2.open == 1;
    assert WriteAll(FRESH, p3) == s2;
    FirstJson(o1, o2);
  }

  /** Interleaved fragments are lost: the chat wire allows them, Messages blocks cannot carry them. Here the
      last fragment of the first call, "3", is in none of the events. */
  lemma InterleavedLoses()
    ensures var ps := [Call(0, "a", "f", "1"), Call(1, "b", "g", "2"), Call(0, "a", "f", "3")];
            && ArgsOf(ps, 0) == "13" && Lost(ps, 0) == "3"
            && WriteAll(FRESH, ps).out ==
               [BlockStart(0, ToolBlock(Given("a"), "f")), JsonDelta(0, "1"), BlockStop(0),
                BlockStart(1, ToolBlock(Given("b"), "g")), JsonDelta(1, "2")]
            && JsonAt(WriteAll(FRESH, ps).out, 0) == "1"
  {
    var p1 := [Call(0, "a", "f", "1")];
    var p2 := p1 + [Call(1, "b", "g", "2")];
    var p3 := p2 + [Call(0, "a", "f", "3")];
    assert p3 == [Call(0, "a", "f", "1"), Call(1, "b", "g", "2"), Call(0, "a", "f", "3")];
    assert p3[..2] == p2 && p2[..1] == p1 && p1[..0] == [];
    InterleavedWritten(p1, p2, p3);
    assert CallOf(p1, 0) == Filling("1") && CallOf(p1, 1) == Absent && ArgsOf(p1, 0) == "" + "1" == "1";
    assert CallOf(p2, 0) == Sealed("1") && ArgsOf(p2, 0) == "1" + "" == "1";
    assert Lost(p1, 0) == "" + "" == "" && Lost(p2, 0) == "" + "" == "";
    assert ArgsOf(p3, 0) == "1" + "3" && Lost(p3, 0) == "" + "3";
  }
}
