/** How a translated stream begins and ends, and whose name and id its tool blocks carry. */
module MessageEnds {
  import opened Text
  import opened Sequences
  import opened MessageStream
  import opened MessageContents

  /** The chunk is translated: it decodes and is not the sentinel. */
  predicate Heard(env: Env, data: string) {
    data != "[DONE]" && env.decode(data).Some?
  }

  /** The first chunk that opens the message: the first one heard, unless an error ended the stream before it. */
  function Opening(env: Env, ds: seq<string>): Option<Chunk> {
    if ds == [] then None
    else
      var before, d := ds[..|ds| - 1], ds[|ds| - 1];
      if Opening(env, before).Some? || Over(env, before) then Opening(env, before)
      else if Heard(env, d) && env.decode(d).value.error.None? then Some(env.decode(d).value)
      else None
  }

  /** The chunk that ended the message: the first with an error or a finish reason. */
  function Closing(env: Env, ds: seq<string>): Option<Chunk> {
    if ds == [] then None
    else
      var before, d := ds[..|ds| - 1], ds[|ds| - 1];
      if Over(env, before) then Closing(env, before)
      else if Ends(env, d) then Some(env.decode(d).value)
      else None
  }

  /** The events a closing chunk ends the stream with. */
  function ClosingEvents(c: Chunk): seq<Event> {
    if c.error.Some? then [ErrorEvent(c.error.value)]
    else if c.choices != [] && c.choices[0].finishReason.Some?
    then [MessageDelta(StopReason(c.choices[0].finishReason.value), c.usage), MessageStop]
    else []
  }

  ghost predicate EndsWith(out: seq<Event>, es: seq<Event>) {
    |es| <= |out| && out[|out| - |es|..] == es
  }

  lemma PieceAppends(s: Stream, p: Piece)
    ensures s.out <= WritePiece(s, p).out && WritePiece(s, p).started == s.started
    ensures WritePiece(s, p).finished == s.finished
  {
  }

  lemma {:induction false} WriteAppends(s: Stream, ps: seq<Piece>)
    ensures s.out <= WriteAll(s, ps).out && WriteAll(s, ps).started == s.started
    ensures WriteAll(s, ps).finished == s.finished
  {
    if ps != [] {
      WriteAppends(s, ps[..|ps| - 1]);
      PieceAppends(WriteAll(s, ps[..|ps| - 1]), ps[|ps| - 1]);
    }
  }

  lemma FinishCloses(s: Stream, reason: Option<string>, usage: Option<Usage>)
    ensures var s' := Finish(s, reason, usage);
            && s.out <= s'.out && s'.started == s.started && s'.finished == (s.finished || reason.Some?)
            && (reason.Some? ==> EndsWith(s'.out, [MessageDelta(StopReason(reason.value), usage), MessageStop]))
  {
    if reason.Some? {
      var c, e := CloseBlock(s), MessageDelta(StopReason(reason.value), usage);
      assert Finish(s, reason, usage).out == c.out + [e, MessageStop];
    }
  }

  lemma HeardEnds(env: Env, s: Stream, data: string, c: Chunk)
    requires !s.finished && Heard(env, data) && c == env.decode(data).value
    ensures var s' := Step(env, s, data);
            && s.out <= s'.out && s'.finished == Ends(env, data) && (s'.started <==> s.started || c.error.None?)
            && (Ends(env, data) ==> EndsWith(s'.out, ClosingEvents(c)))
  {
    if c.error.None? {
      var s1 := Start(env, s, c.model);
      assert s.out <= s1.out && s1.started && s1.finished == s.finished;
      if c.choices != [] {
        var ps := Pieces(c.choices[0]);
        WriteAppends(s1, ps);
        FinishCloses(WriteAll(s1, ps), c.choices[0].finishReason, c.usage);
      }
    }
  }

  /** What one chunk does to the start, the end and what was emitted before it. */
  lemma StepEnds(env: Env, s: Stream, data: string)
    ensures var s' := Step(env, s, data);
            && s.out <= s'.out
            && (!s.finished && Ends(env, data) ==>
                s'.finished && EndsWith(s'.out, ClosingEvents(env.decode(data).value)))
            && (s.finished || !Ends(env, data) ==> s'.finished == s.finished)
            && (s.finished ==> s' == s)
            && (s'.started <==> s.started || (!s.finished && Heard(env, data) && env.decode(data).value.error.None?))
  {
    if !s.finished && Heard(env, data) {
      HeardEnds(env, s, data, env.decode(data).value);
    }
  }

  /** A chunk that opens the message emits its start and the ping first. */
  lemma StepOpens(env: Env, s: Stream, data: string)
    requires !s.started && Step(env, s, data).started
    ensures var c := env.decode(data).value;
            s.out + [MessageStart(if c.model != "" then c.model else env.model), Ping] <= Step(env, s, data).out
  {
    var c := env.decode(data).value;
    var s1 := Start(env, s, c.model);
    assert s1.out == s.out + [MessageStart(if c.model != "" then c.model else env.model), Ping];
    if c.choices != [] {
      WriteAppends(s1, Pieces(c.choices[0]));
    }
  }

  lemma {:induction false} FoldEnds(env: Env, ds: seq<string>)
    ensures var s := Fold(env, FRESH, ds);
            && s.finished == Over(env, ds) == Closing(env, ds).Some?
            && (s.finished ==> EndsWith(s.out, ClosingEvents(Closing(env, ds).value)))
  {
    if ds != [] {
      var before := ds[..|ds| - 1];
      FoldEnds(env, before);
      StepEnds(env, Fold(env, FRESH, before), ds[|ds| - 1]);
    }
  }

  lemma {:induction false} FoldOpens(env: Env, ds: seq<string>)
    ensures var s := Fold(env, FRESH, ds);
            && (s.started <==> Opening(env, ds).Some?)
            && (!s.started && !s.finished ==> s.out == [])
            && (s.started ==> var m := Opening(env, ds).value.model;
                              [MessageStart(if m != "" then m else env.model), Ping] <= s.out)
  {
    if ds != [] {
      var before, d := ds[..|ds| - 1], ds[|ds| - 1];
      var s := Fold(env, FRESH, before);
      FoldOpens(env, before);
      FoldEnds(env, before);
      StepEnds(env, s, d);
      if !s.started && Step(env, s, d).started {
        StepOpens(env, s, d);
        assert s.out == [];
      }
    }
  }

  /** The message is opened by the first chunk that decodes without an error, under that chunk's model or else
      the request's. */
  lemma Opened(env: Env, bytes: string)
    ensures var s, c := Drain(env, FRESH, bytes).0, Opening(env, AllData(bytes));
            && (s.started <==> c.Some?)
            && (s.started ==> [MessageStart(if c.value.model != "" then c.value.model else env.model), Ping] <= s.out)
  {
    DrainIsFold(env, FRESH, bytes);
    FoldOpens(env, AllData(bytes));
  }

  /** It is closed by the first chunk with an error or a finish reason, with that chunk's error, or its stop
      reason and usage. */
  lemma Closed(env: Env, bytes: string)
    ensures var s, c := Drain(env, FRESH, bytes).0, Closing(env, AllData(bytes));
            (s.finished <==> c.Some?) && (s.finished ==> EndsWith(s.out, ClosingEvents(c.value)))
  {
    DrainIsFold(env, FRESH, bytes);
    FoldEnds(env, AllData(bytes));
  }

  // ---- tool blocks ----

  /** The first fragment of a call. */
  function FirstOf(ps: seq<Piece>, idx: int): Option<Piece> {
    if ps == [] then None
    else
      var f := FirstOf(ps[..|ps| - 1], idx);
      if f.Some? then f else if OfCall(ps[|ps| - 1], idx) then Some(ps[|ps| - 1]) else None
  }

  /** A block `k` was started with the id and name of this fragment. */
  ghost predicate Announced(out: seq<Event>, k: int, p: Piece) {
    p.Call? && BlockStart(k, ToolBlock(if p.id == "" then Drawn else Given(p.id), p.name)) in out
  }

  ghost predicate BlocksNamed(s: Stream, ps: seq<Piece>) {
    && (forall idx: int :: idx in s.toolBlock <==> FirstOf(ps, idx).Some?)
    && (forall idx | idx in s.toolBlock :: Announced(s.out, s.toolBlock[idx], FirstOf(ps, idx).value))
  }

  lemma FirstOfMore(ps: seq<Piece>, p: Piece, idx: int)
    ensures FirstOf(ps + [p], idx) ==
            if FirstOf(ps, idx).Some? then FirstOf(ps, idx) else if OfCall(p, idx) then Some(p) else None
  {
    assert (ps + [p])[..|ps|] == ps;
  }

  lemma NewCallAnnounced(s: Stream, p: Piece)
    requires p.Call? && p.idx !in s.toolBlock
    ensures WritePiece(s, p).toolBlock == s.toolBlock[p.idx := s.next] && Announced(WritePiece(s, p).out, s.next, p)
  {
    var t := WithCall(s, p);
    assert t.out[|t.out| - 1] == BlockStart(s.next, ToolBlock(if p.id == "" then Drawn else Given(p.id), p.name));
    assert t.out <= WritePiece(s, p).out;
  }

  lemma PieceNamed(s: Stream, ps: seq<Piece>, p: Piece)
    requires BlocksNamed(s, ps)
    ensures BlocksNamed(WritePiece(s, p), ps + [p])
  {
    var s', ps' := WritePiece(s, p), ps + [p];
    PieceAppends(s, p);
    if p.Call? && p.idx !in s.toolBlock {
      NewCallAnnounced(s, p);
    }
    forall idx: int ensures idx in s'.toolBlock <==> FirstOf(ps', idx).Some? {
      FirstOfMore(ps, p, idx);
    }
    forall idx | idx in s'.toolBlock ensures Announced(s'.out, s'.toolBlock[idx], FirstOf(ps', idx).value) {
      FirstOfMore(ps, p, idx);
    }
  }

  lemma {:induction false} PiecesNamed(s: Stream, ps: seq<Piece>, qs: seq<Piece>)
    requires BlocksNamed(s, ps)
    ensures BlocksNamed(WriteAll(s, qs), ps + qs)
  {
    if qs == [] {
      assert ps + qs == ps;
    } else {
      PiecesNamed(s, ps, qs[..|qs| - 1]);
      PieceNamed(WriteAll(s, qs[..|qs| - 1]), ps + qs[..|qs| - 1], qs[|qs| - 1]);
      AppendLast(ps, qs);
    }
  }

  lemma NamedFramed(s: Stream, s': Stream, ps: seq<Piece>)
    requires BlocksNamed(s, ps) && s'.toolBlock == s.toolBlock && s.out <= s'.out
    ensures BlocksNamed(s', ps)
  {
  }

  lemma StepNamed(env: Env, s: Stream, ps: seq<Piece>, data: string)
    requires BlocksNamed(s, ps)
    ensures BlocksNamed(Step(env, s, data), ps + if s.finished then [] else PiecesIn(env, data))
  {
    assert ps + [] == ps;
    if !s.finished && Heard(env, data) {
      var c := env.decode(data).value;
      if c.error.Some? {
        NamedFramed(s, Step(env, s, data), ps);
      } else {
        var s1 := Start(env, s, c.model);
        NamedFramed(s, s1, ps);
        if c.choices != [] {
          var qs, ch := Pieces(c.choices[0]), c.choices[0];
          PiecesNamed(s1, ps, qs);
          FinishCloses(WriteAll(s1, qs), ch.finishReason, c.usage);
          NamedFramed(WriteAll(s1, qs), Finish(WriteAll(s1, qs), ch.finishReason, c.usage), ps + qs);
        }
      }
    }
  }

  lemma {:induction false} FoldNamed(env: Env, ds: seq<string>)
    ensures BlocksNamed(Fold(env, FRESH, ds), Said(env, ds))
  {
    if ds != [] {
      var before := ds[..|ds| - 1];
      FoldNamed(env, before);
      FoldEnds(env, before);
      StepNamed(env, Fold(env, FRESH, before), Said(env, before), ds[|ds| - 1]);
    }
  }

  /** The block of a call was started under the id and the name of the call's first fragment. */
  lemma CallsNamed(env: Env, bytes: string, idx: int)
    ensures var s, ps := Drain(env, FRESH, bytes).0, Said(env, AllData(bytes));
            && (idx in s.toolBlock <==> FirstOf(ps, idx).Some?)
            && (idx in s.toolBlock ==> Announced(s.out, s.toolBlock[idx], FirstOf(ps, idx).value))
  {
    DrainIsFold(env, FRESH, bytes);
    FoldNamed(env, AllData(bytes));
  }
}
