/**
 The message a translated stream spells out: a list of content blocks. The events emitted so far are exactly
 this message's, block after block.
 */
module MessageBlocks {
  import opened Text
  import opened Sequences
  import opened MessageStream
  import opened MessageContents
  import opened MessageEnds

  /** A content block and the deltas it arrived in. */
  datatype Block =
    | Prose(deltas: seq<string>)
    | ToolUse(idx: int, id: ToolId, name: string, deltas: seq<string>)

  /** The block of a call, or -1. */
  function BlockOf(bs: seq<Block>, idx: int): (k: int)
    ensures -1 <= k < |bs|
    ensures 0 <= k ==> bs[k].ToolUse? && bs[k].idx == idx
    ensures k < 0 ==> forall j | 0 <= j < |bs| && bs[j].ToolUse? :: bs[j].idx != idx
  {
    if bs == [] then -1
    else if bs[|bs| - 1].ToolUse? && bs[|bs| - 1].idx == idx then |bs| - 1
    else BlockOf(bs[..|bs| - 1], idx)
  }

  /** The last block with one more delta. */
  function Longer(bs: seq<Block>, delta: string): seq<Block>
    requires bs != []
  {
    var last := bs[|bs| - 1];
    bs[..|bs| - 1] + [last.(deltas := last.deltas + [delta])]
  }

  predicate EndsInProse(bs: seq<Block>) {
    bs != [] && bs[|bs| - 1].Prose?
  }

  function NewTool(p: Piece): Block
    requires p.Call?
  {
    ToolUse(p.idx, if p.id == "" then Drawn else Given(p.id), p.name, if p.args == "" then [] else [p.args])
  }

  /** The message with one more piece: text goes to the text block at the end or to a new one, a fragment to
      its call's block if that is the last, to a new one if there is none, and otherwise nowhere. */
  function With(bs: seq<Block>, p: Piece): seq<Block> {
    match p
    case Words(text) => if EndsInProse(bs) then Longer(bs, text) else bs + [Prose([text])]
    case Call(idx, _, _, args) =>
      var k := BlockOf(bs, idx);
      if k < 0 then bs + [NewTool(p)]
      else if k < |bs| - 1 || args == "" then bs
      else Longer(bs, args)
  }

  function Blocks(ps: seq<Piece>): seq<Block> {
    if ps == [] then [] else With(Blocks(ps[..|ps| - 1]), ps[|ps| - 1])
  }

  // ---- its events ----

  function KindOf(b: Block): Kind {
    match b
    case Prose(_) => TextBlock
    case ToolUse(_, id, name, _) => ToolBlock(id, name)
  }

  function Delta(k: int, b: Block, d: string): Event {
    if b.Prose? then TextDelta(k, d) else JsonDelta(k, d)
  }

  /** A block up to its last delta. */
  function Shown(k: int, b: Block): seq<Event> {
    [BlockStart(k, KindOf(b))] + seq(|b.deltas|, i requires 0 <= i < |b.deltas| => Delta(k, b, b.deltas[i]))
  }

  /** All blocks, each stopped. */
  function Stopped(bs: seq<Block>): seq<Event> {
    if bs == [] then []
    else Stopped(bs[..|bs| - 1]) + Shown(|bs| - 1, bs[|bs| - 1]) + [BlockStop(|bs| - 1)]
  }

  /** All blocks, the last one still open. */
  function Unstopped(bs: seq<Block>): seq<Event> {
    if bs == [] then [] else Stopped(bs[..|bs| - 1]) + Shown(|bs| - 1, bs[|bs| - 1])
  }

  // ---- the writer spells them out ----

  /** The writer has emitted `head` and then the blocks, and knows where they are. */
  ghost predicate Spells(s: Stream, head: seq<Event>, bs: seq<Block>) {
    && s.out == head + Unstopped(bs) && s.next == |bs| && s.open == |bs| - 1
    && (s.openText <==> EndsInProse(bs))
    && (forall idx: int :: idx in s.toolBlock <==> 0 <= BlockOf(bs, idx))
    && (forall idx | idx in s.toolBlock :: s.toolBlock[idx] == BlockOf(bs, idx))
  }

  lemma ShownMore(k: int, b: Block, d: string)
    ensures Shown(k, b.(deltas := b.deltas + [d])) == Shown(k, b) + [Delta(k, b, d)]
  {
  }

  lemma LongerShown(bs: seq<Block>, d: string)
    requires bs != []
    ensures Unstopped(Longer(bs, d)) == Unstopped(bs) + [Delta(|bs| - 1, bs[|bs| - 1], d)]
  {
    var init, last := bs[..|bs| - 1], bs[|bs| - 1];
    assert Longer(bs, d)[..|bs| - 1] == init;
    ShownMore(|bs| - 1, last, d);
    Regroup(Stopped(init), Shown(|bs| - 1, last), [Delta(|bs| - 1, last, d)]);
  }

  lemma LongerFound(bs: seq<Block>, d: string, idx: int)
    requires bs != []
    ensures BlockOf(Longer(bs, d), idx) == BlockOf(bs, idx)
  {
    assert Longer(bs, d)[..|bs| - 1] == bs[..|bs| - 1];
  }

  lemma DeltaSpelt(s: Stream, head: seq<Event>, bs: seq<Block>, d: string)
    requires Spells(s, head, bs) && bs != []
    ensures Spells(Emit(s, Delta(s.open, bs[|bs| - 1], d)), head, Longer(bs, d))
  {
    LongerShown(bs, d);
    Regroup(head, Unstopped(bs), [Delta(s.open, bs[|bs| - 1], d)]);
    forall idx: int ensures BlockOf(Longer(bs, d), idx) == BlockOf(bs, idx) {
      LongerFound(bs, d, idx);
    }
  }

  /** The stop of the block that is open, if one is. */
  function StopOf(bs: seq<Block>): seq<Event> {
    if bs == [] then [] else [BlockStop(|bs| - 1)]
  }

  lemma MoreShown(bs: seq<Block>, b: Block)
    ensures Unstopped(bs + [b]) == Unstopped(bs) + StopOf(bs) + Shown(|bs|, b)
  {
    assert (bs + [b])[..|bs|] == bs;
  }

  lemma MoreFound(bs: seq<Block>, b: Block, idx: int)
    ensures BlockOf(bs + [b], idx) == if b.ToolUse? && b.idx == idx then |bs| else BlockOf(bs, idx)
  {
    assert (bs + [b])[..|bs|] == bs;
  }

  lemma Reopened(s: Stream, head: seq<Event>, bs: seq<Block>, kind: Kind)
    requires Spells(s, head, bs)
    ensures var s' := OpenBlock(CloseBlock(s), kind);
            && s'.out == head + (Unstopped(bs) + StopOf(bs) + [BlockStart(|bs|, kind)])
            && s'.open == |bs| && s'.next == |bs| + 1 && s'.toolBlock == s.toolBlock && s'.openText == kind.TextBlock?
  {
    assert CloseBlock(s).out == s.out + StopOf(bs);
    Regroup(head, Unstopped(bs), StopOf(bs));
    Regroup(head, Unstopped(bs) + StopOf(bs), [BlockStart(|bs|, kind)]);
  }

  lemma NewSpelt(s: Stream, head: seq<Event>, bs: seq<Block>, b: Block, s': Stream)
    requires Spells(s, head, bs)
    requires s'.out == head + (Unstopped(bs) + StopOf(bs) + Shown(|bs|, b))
    requires s'.open == |bs| && s'.next == |bs| + 1 && s'.openText == b.Prose?
    requires s'.toolBlock == if b.Prose? then s.toolBlock else s.toolBlock[b.idx := |bs|]
    ensures Spells(s', head, bs + [b])
  {
    MoreShown(bs, b);
    forall idx: int
      ensures BlockOf(bs + [b], idx) == if b.ToolUse? && b.idx == idx then |bs| else BlockOf(bs, idx)
    {
      MoreFound(bs, b, idx);
    }
  }

  lemma ProseSpelt(s: Stream, head: seq<Event>, bs: seq<Block>, text: string)
    requires Spells(s, head, bs)
    ensures Spells(WritePiece(s, Words(text)), head, With(bs, Words(text)))
  {
    if EndsInProse(bs) {
      DeltaSpelt(s, head, bs, text);
    } else {
      Reopened(s, head, bs, TextBlock);
      NewSpelt(s, head, bs, Prose([text]), WritePiece(s, Words(text)));
    }
  }

  lemma ToolWritten(s: Stream, p: Piece)
    requires p.Call? && p.idx !in s.toolBlock
    ensures var s', o := WritePiece(s, p), OpenBlock(CloseBlock(s), KindOf(NewTool(p)));
            && s'.out == o.out + (if p.args == "" then [] else [JsonDelta(o.open, p.args)])
            && s'.open == o.open && s'.next == o.next && s'.openText == o.openText
            && s'.toolBlock == o.toolBlock[p.idx := o.open]
  {
  }

  lemma NewToolShown(k: int, p: Piece)
    requires p.Call?
    ensures Shown(k, NewTool(p)) ==
            [BlockStart(k, KindOf(NewTool(p)))] + if p.args == "" then [] else [JsonDelta(k, p.args)]
  {
  }

  lemma ToolSpelt(s: Stream, head: seq<Event>, bs: seq<Block>, p: Piece)
    requires Spells(s, head, bs) && p.Call? && BlockOf(bs, p.idx) < 0
    ensures Spells(WritePiece(s, p), head, With(bs, p))
  {
    var b := NewTool(p);
    Reopened(s, head, bs, KindOf(b));
    ToolWritten(s, p);
    NewToolShown(|bs|, p);
    NewSpelt(s, head, bs, b, WritePiece(s, p));
  }

  lemma FragmentSpelt(s: Stream, head: seq<Event>, bs: seq<Block>, p: Piece)
    requires Spells(s, head, bs) && p.Call? && 0 <= BlockOf(bs, p.idx)
    ensures Spells(WritePiece(s, p), head, With(bs, p))
  {
    assert p.idx in s.toolBlock && s.toolBlock[p.idx] == BlockOf(bs, p.idx);
    DeltaSpelt(s, head, bs, p.args);
  }

  lemma PieceSpelt(s: Stream, head: seq<Event>, bs: seq<Block>, p: Piece)
    requires Spells(s, head, bs)
    ensures Spells(WritePiece(s, p), head, With(bs, p))
  {
    if p.Words? {
      ProseSpelt(s, head, bs, p.text);
    } else if BlockOf(bs, p.idx) < 0 {
      ToolSpelt(s, head, bs, p);
    } else {
      FragmentSpelt(s, head, bs, p);
    }
  }

  lemma BlocksMore(ps: seq<Piece>, p: Piece)
    ensures Blocks(ps + [p]) == With(Blocks(ps), p)
  {
    assert (ps + [p])[..|ps|] == ps;
  }

  lemma {:induction false} PiecesSpelt(s: Stream, head: seq<Event>, ps: seq<Piece>, qs: seq<Piece>)
    requires Spells(s, head, Blocks(ps))
    ensures Spells(WriteAll(s, qs), head, Blocks(ps + qs))
  {
    if qs == [] {
      assert ps + qs == ps;
    } else {
      var init, last := qs[..|qs| - 1], qs[|qs| - 1];
      PiecesSpelt(s, head, ps, init);
      PieceSpelt(WriteAll(s, init), head, Blocks(ps + init), last);
      AppendLast(ps, qs);
      BlocksMore(ps + init, last);
    }
  }

  // ---- the whole message ----

  /** How a message begins. */
  function Head(env: Env, opening: Option<Chunk>): seq<Event> {
    match opening
    case None => []
    case Some(c) => [MessageStart(if c.model != "" then c.model else env.model), Ping]
  }

  /** How the answer ends: an error cuts the open block short, a finish reason stops it. */
  function Ended(bs: seq<Block>, closing: Option<Chunk>): seq<Event> {
    match closing
    case None => Unstopped(bs)
    case Some(c) => (if c.error.Some? then Unstopped(bs) else Stopped(bs)) + ClosingEvents(c)
  }

  /** What the writer has emitted is the message of the chunks so far. */
  ghost predicate Told(env: Env, s: Stream, ds: seq<string>) {
    var head, bs := Head(env, Opening(env, ds)), Blocks(Said(env, ds));
    && (s.started <==> Opening(env, ds).Some?) && s.finished == Over(env, ds) == Closing(env, ds).Some?
    && (!s.started ==> Said(env, ds) == [])
    && (!s.finished ==> Spells(s, head, bs))
    && s.out == head + Ended(bs, Closing(env, ds))
  }

  lemma StartSpelt(env: Env, s: Stream, opening: Option<Chunk>, bs: seq<Block>, c: Chunk)
    requires Spells(s, Head(env, opening), bs) && (s.started <==> opening.Some?) && (!s.started ==> bs == [])
    ensures Spells(Start(env, s, c.model), Head(env, if opening.Some? then opening else Some(c)), bs)
  {
  }

  lemma CloseSpelt(s: Stream, head: seq<Event>, bs: seq<Block>)
    requires Spells(s, head, bs)
    ensures CloseBlock(s).out == head + Stopped(bs)
  {
    Regroup(head, Unstopped(bs), StopOf(bs));
  }

  lemma FinishSpelt(s: Stream, head: seq<Event>, bs: seq<Block>, c: Chunk)
    requires Spells(s, head, bs) && c.error.None? && c.choices != []
    ensures var reason := c.choices[0].finishReason;
            Finish(s, reason, c.usage).out == head + if reason.Some? then Ended(bs, Some(c)) else Unstopped(bs)
  {
    var reason := c.choices[0].finishReason;
    if reason.Some? {
      CloseSpelt(s, head, bs);
      assert Finish(s, reason, c.usage).out == CloseBlock(s).out + ClosingEvents(c);
      Regroup(head, Stopped(bs), ClosingEvents(c));
    }
  }

  /** What a chunk that is heard adds. */
  lemma HeardSaid(env: Env, before: seq<string>, d: string)
    requires Heard(env, d) && !Over(env, before)
    ensures var ds, c := before + [d], env.decode(d).value;
            && Said(env, ds) == Said(env, before) + PiecesIn(env, d)
            && Opening(env, ds) ==
               (if Opening(env, before).Some? || c.error.Some? then Opening(env, before) else Some(c))
            && Closing(env, ds) == (if Ends(env, d) then Some(c) else None) && Over(env, ds) == Ends(env, d)
  {
    assert (before + [d])[..|before|] == before;
  }

  lemma ErrorTold(env: Env, s: Stream, before: seq<string>, d: string)
    requires Told(env, s, before) && !s.finished && Heard(env, d) && env.decode(d).value.error.Some?
    ensures Told(env, Step(env, s, d), before + [d])
  {
    HeardSaid(env, before, d);
    assert Said(env, before) + [] == Said(env, before);
  }

  /** The message is opened, if it was not. */
  lemma StartTold(env: Env, s: Stream, before: seq<string>, d: string)
    requires Told(env, s, before) && !s.finished && Heard(env, d) && env.decode(d).value.error.None?
    ensures var s1 := Start(env, s, env.decode(d).value.model);
            && s1.started && !s1.finished && Opening(env, before + [d]).Some?
            && Spells(s1, Head(env, Opening(env, before + [d])), Blocks(Said(env, before)))
  {
    HeardSaid(env, before, d);
    StartSpelt(env, s, Opening(env, before), Blocks(Said(env, before)), env.decode(d).value);
  }

  lemma ChoiceTold(env: Env, s1: Stream, head: seq<Event>, ps: seq<Piece>, c: Chunk)
    requires s1.started && !s1.finished && Spells(s1, head, Blocks(ps)) && c.error.None? && c.choices != []
    ensures var ch := c.choices[0];
            var s', bs := Finish(WriteAll(s1, Pieces(ch)), ch.finishReason, c.usage), Blocks(ps + Pieces(ch));
            && s'.started && s'.finished == ch.finishReason.Some? && (!s'.finished ==> Spells(s', head, bs))
            && s'.out == head + Ended(bs, if s'.finished then Some(c) else None)
  {
    var qs := Pieces(c.choices[0]);
    PiecesSpelt(s1, head, ps, qs);
    WriteAppends(s1, qs);
    FinishSpelt(WriteAll(s1, qs), head, Blocks(ps + qs), c);
  }

  lemma HeardTold(env: Env, s: Stream, before: seq<string>, d: string)
    requires Told(env, s, before) && !s.finished && Heard(env, d) && env.decode(d).value.error.None?
    ensures Told(env, Step(env, s, d), before + [d])
  {
    var c, ps := env.decode(d).value, Said(env, before);
    HeardSaid(env, before, d);
    StartTold(env, s, before, d);
    if c.choices == [] {
      assert ps + [] == ps;
    } else {
      ChoiceTold(env, Start(env, s, c.model), Head(env, Opening(env, before + [d])), ps, c);
    }
  }

  /** A chunk that is not heard, or comes after the end, changes nothing. */
  lemma UnheardTold(env: Env, s: Stream, before: seq<string>, d: string)
    requires Told(env, s, before) && (s.finished || !Heard(env, d))
    ensures Told(env, Step(env, s, d), before + [d])
  {
    assert (before + [d])[..|before|] == before;
    assert Said(env, before + [d]) == Said(env, before) + [] == Said(env, before);
  }

  lemma {:induction false} FoldTold(env: Env, ds: seq<string>)
    ensures Told(env, Fold(env, FRESH, ds), ds)
  {
    if ds != [] {
      var before, d := ds[..|ds| - 1], ds[|ds| - 1];
      FoldTold(env, before);
      assert ds == before + [d];
      if Fold(env, FRESH, before).finished || !Heard(env, d) {
        UnheardTold(env, Fold(env, FRESH, before), before, d);
      } else if env.decode(d).value.error.Some? {
        ErrorTold(env, Fold(env, FRESH, before), before, d);
      } else {
        HeardTold(env, Fold(env, FRESH, before), before, d);
      }
    }
  }

  /** The events are those of the message the stream spells out: its start, its blocks one after the other, each
      with its deltas, and its end. Nothing else is emitted. */
  lemma EmitsTheMessage(env: Env, bytes: string)
    ensures var ds := AllData(bytes);
            Drain(env, FRESH, bytes).0.out ==
            Head(env, Opening(env, ds)) + Ended(Blocks(Said(env, ds)), Closing(env, ds))
  {
    DrainIsFold(env, FRESH, bytes);
    FoldTold(env, AllData(bytes));
  }

  /** No text block follows another, and no call has two blocks. */
  ghost predicate Apart(bs: seq<Block>) {
    && (forall k | 0 <= k < |bs| - 1 :: bs[k].Prose? ==> bs[k + 1].ToolUse?)
    && (forall j, k | 0 <= j < k < |bs| && bs[j].ToolUse? && bs[k].ToolUse? :: bs[j].idx != bs[k].idx)
  }

  lemma LongerApart(bs: seq<Block>, d: string)
    requires Apart(bs) && bs != []
    ensures Apart(Longer(bs, d))
  {
    var bs' := Longer(bs, d);
    assert forall k | 0 <= k < |bs| :: bs'[k].Prose? == bs[k].Prose? && (bs[k].ToolUse? ==> bs'[k].idx == bs[k].idx);
  }

  lemma {:induction false} BlocksApart(ps: seq<Piece>)
    ensures Apart(Blocks(ps))
  {
    if ps != [] {
      var bs, p := Blocks(ps[..|ps| - 1]), ps[|ps| - 1];
      BlocksApart(ps[..|ps| - 1]);
      if bs != [] {
        LongerApart(bs, if p.Words? then p.text else p.args);
      }
    }
  }
}
