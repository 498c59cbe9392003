/** The grammar of the translated event streams, for every byte stream. */
module MessageGrammar {
  import opened Text
  import opened MessageStream

  // ---- the grammar of a Messages stream ----

  datatype Block = Block(kind: Kind, deltas: seq<string>)

  datatype Ending = Going | Complete(stopReason: string, usage: Option<Usage>) | Cut(message: string)

  /** A Messages stream, possibly not over yet: the message's head once it has begun, its finished blocks,
      the block being written, and how it ended. */
  datatype Message = Message(head: Option<string>, blocks: seq<Block>, current: Option<Block>, ending: Ending) {
    predicate WellFormed() {
      && (head.None? ==> blocks == [] && current.None? && !ending.Complete?)
      && (ending.Complete? ==> current.None?)
    }
  }

  function Delta(kind: Kind, index: nat, text: string): Event {
    if kind.TextBlock? then TextDelta(index, text) else JsonDelta(index, text)
  }

  function Deltas(kind: Kind, index: nat, texts: seq<string>): seq<Event> {
    if texts == [] then [] else Deltas(kind, index, texts[..|texts| - 1]) + [Delta(kind, index, texts[|texts| - 1])]
  }

  function Opened(index: nat, b: Block): seq<Event> {
    [BlockStart(index, b.kind)] + Deltas(b.kind, index, b.deltas)
  }

  /** Finished blocks, numbered from 0. */
  function Closed(bs: seq<Block>): seq<Event> {
    if bs == [] then []
    else Closed(bs[..|bs| - 1]) + (Opened(|bs| - 1, bs[|bs| - 1]) + [BlockStop(|bs| - 1)])
  }

  function Head(head: Option<string>): seq<Event> {
    if head.None? then [] else [MessageStart(head.value), Ping]
  }

  function End(e: Ending): seq<Event> {
    match e
    case Going => []
    case Complete(reason, usage) => [MessageDelta(reason, usage), MessageStop]
    case Cut(message) => [ErrorEvent(message)]
  }

  /** The events of a Messages stream. */
  function Events(m: Message): seq<Event> {
    Head(m.head) + Closed(m.blocks)
    + (if m.current.Some? then Opened(|m.blocks|, m.current.value) else [])
    + End(m.ending)
  }

  // ---- the translator writes one ----

  ghost predicate Tools(s: Stream) {
    forall idx | idx in s.toolBlock ::
      0 <= s.toolBlock[idx] < s.next && (s.toolBlock[idx] == s.open ==> !s.openText)
  }

  ghost predicate Writes(s: Stream, m: Message) {
    && m.WellFormed() && s.out == Events(m)
    && s.started == m.head.Some? && s.finished == !m.ending.Going?
    && s.next == |m.blocks| + (if m.current.Some? then 1 else 0)
    && s.open == (if m.current.Some? then |m.blocks| else -1)
    && s.openText == (m.current.Some? && m.current.value.kind.TextBlock?)
    && Tools(s)
  }

  function CloseCurrent(m: Message): Message {
    if m.current.None? then m else m.(blocks := m.blocks + [m.current.value], current := None)
  }

  lemma Closes(s: Stream, m: Message)
    requires Writes(s, m) && m.ending.Going?
    ensures Writes(CloseBlock(s), CloseCurrent(m))
  {
    if m.current.Some? {
      var n, b := |m.blocks|, m.current.value;
      assert (m.blocks + [b])[..n] == m.blocks;
      assert Closed(m.blocks + [b]) == Closed(m.blocks) + (Opened(n, b) + [BlockStop(n)]);
      assert Events(CloseCurrent(m)) == Events(m) + [BlockStop(n)];
    }
  }

  lemma Opens(s: Stream, m: Message, kind: Kind)
    requires Writes(s, m) && m.ending.Going? && m.head.Some? && m.current.None?
    ensures Writes(OpenBlock(s, kind), m.(current := Some(Block(kind, []))))
  {
    var m' := m.(current := Some(Block(kind, [])));
    assert Opened(|m.blocks|, Block(kind, [])) == [BlockStart(|m.blocks|, kind)];
    assert Events(m') == Events(m) + [BlockStart(|m.blocks|, kind)];
  }

  lemma Adds(s: Stream, m: Message, text: string)
    requires Writes(s, m) && m.ending.Going? && m.current.Some?
    ensures var b := m.current.value;
            Writes(Emit(s, Delta(b.kind, |m.blocks|, text)), m.(current := Some(b.(deltas := b.deltas + [text]))))
  {
    var b, n := m.current.value, |m.blocks|;
    var b' := b.(deltas := b.deltas + [text]);
    assert (b.deltas + [text])[..|b.deltas|] == b.deltas;
    assert Opened(n, b') == Opened(n, b) + [Delta(b.kind, n, text)];
    assert Events(m.(current := Some(b'))) == Events(m) + [Delta(b.kind, n, text)];
  }

  /** The message once a new block of `kind` is open. */
  function NewBlock(m: Message, kind: Kind): Message {
    CloseCurrent(m).(current := Some(Block(kind, [])))
  }

  lemma CallWritten(s: Stream, m: Message, idx: int, id: string, name: string, args: string) returns (m': Message)
    requires Writes(s, m) && m.ending.Going? && m.head.Some?
    ensures Writes(WritePiece(s, Call(idx, id, name, args)), m') && m'.ending.Going? && m'.head.Some?
  {
    m' := m;
    if idx !in s.toolBlock || s.toolBlock[idx] == s.open {
      var s' := s;
      if idx !in s.toolBlock {
        var kind := ToolBlock(if id == "" then Drawn else Given(id), name);
        Closes(s, m);
        Opens(CloseBlock(s), CloseCurrent(m), kind);
        var o := OpenBlock(CloseBlock(s), kind);
        s', m' := o.(toolBlock := o.toolBlock[idx := o.open]), NewBlock(m, kind);
        assert Tools(s');
      }
      assert Writes(s', m');
      if args != "" {
        Adds(s', m', args);
        m' := m'.(current := Some(m'.current.value.(deltas := m'.current.value.deltas + [args])));
      }
    }
  }

  lemma PieceWritten(s: Stream, m: Message, p: Piece) returns (m': Message)
    requires Writes(s, m) && m.ending.Going? && m.head.Some?
    ensures Writes(WritePiece(s, p), m') && m'.ending.Going? && m'.head.Some?
  {
    match p {
      case Words(text) =>
        m' := m;
        var s' := s;
        if !s.openText {
          Closes(s, m);
          Opens(CloseBlock(s), CloseCurrent(m), TextBlock);
          s', m' := OpenBlock(CloseBlock(s), TextBlock), NewBlock(m, TextBlock);
        }
        Adds(s', m', text);
        m' := m'.(current := Some(m'.current.value.(deltas := m'.current.value.deltas + [text])));
      case Call(idx, id, name, args) =>
        m' := CallWritten(s, m, idx, id, name, args);
    }
  }

  lemma {:induction false} PiecesWritten(s: Stream, m: Message, ps: seq<Piece>) returns (m': Message)
    requires Writes(s, m) && m.ending.Going? && m.head.Some?
    ensures Writes(WriteAll(s, ps), m') && m'.ending.Going? && m'.head.Some?
  {
    m' := m;
    if ps != [] {
      m' := PiecesWritten(s, m, ps[..|ps| - 1]);
      m' := PieceWritten(WriteAll(s, ps[..|ps| - 1]), m', ps[|ps| - 1]);
    }
  }

  lemma Starts(env: Env, s: Stream, m: Message, model: string) returns (m': Message)
    requires Writes(s, m) && m.ending.Going?
    ensures Writes(Start(env, s, model), m') && m'.ending.Going? && m'.head.Some?
  {
    m' := m;
    if m.head.None? {
      m' := m.(head := Some(if model != "" then model else env.model));
      assert Events(m) == [];
      assert Events(m') == [MessageStart(m'.head.value), Ping];
    }
  }

  lemma Finishes(s: Stream, m: Message, reason: Option<string>, usage: Option<Usage>) returns (m': Message)
    requires Writes(s, m) && m.ending.Going? && m.head.Some?
    ensures Writes(Finish(s, reason, usage), m')
  {
    m' := m;
    if reason.Some? {
      Closes(s, m);
      m' := CloseCurrent(m).(ending := Complete(StopReason(reason.value), usage));
      assert Events(m') == Events(CloseCurrent(m)) + [MessageDelta(StopReason(reason.value), usage), MessageStop];
    }
  }

  lemma StepWritten(env: Env, s: Stream, m: Message, data: string) returns (m': Message)
    requires Writes(s, m)
    ensures Writes(Step(env, s, data), m')
  {
    m' := m;
    if !s.finished && data != "[DONE]" && env.decode(data).Some? {
      var c := env.decode(data).value;
      if c.error.Some? {
        m' := m.(ending := Cut(c.error.value));
        assert Events(m') == Events(m) + [ErrorEvent(c.error.value)];
      } else {
        m' := Starts(env, s, m, c.model);
        if c.choices != [] {
          var s1 := Start(env, s, c.model);
          m' := PiecesWritten(s1, m', Pieces(c.choices[0]));
          m' := Finishes(WriteAll(s1, Pieces(c.choices[0])), m', c.choices[0].finishReason, c.usage);
        }
      }
    }
  }

  lemma {:induction false} FoldWritten(env: Env, s: Stream, m: Message, ds: seq<string>) returns (m': Message)
    requires Writes(s, m)
    ensures Writes(Fold(env, s, ds), m')
  {
    m' := m;
    if ds != [] {
      m' := FoldWritten(env, s, m, ds[..|ds| - 1]);
      m' := StepWritten(env, Fold(env, s, ds[..|ds| - 1]), m', ds[|ds| - 1]);
    }
  }

  lemma {:induction false} DrainWritten(env: Env, s: Stream, m: Message, bytes: string) returns (m': Message)
    requires Writes(s, m)
    ensures Writes(Drain(env, s, bytes).0, m')
    decreases |bytes|
  {
    m' := m;
    var i := Gap(bytes, 0);
    if 0 <= i {
      m' := FoldWritten(env, s, m, DataOf(bytes[..i]));
      m' := DrainWritten(env, Fold(env, s, DataOf(bytes[..i])), m', bytes[i + 2..]);
    }
  }

  /** For every byte stream and every decoder, what has been emitted is the events of one Messages stream:
      start and ping, blocks numbered 0, 1, 2, ... with deltas of their own kind and index, at most one of
      them open, and nothing after the end or the error. */
  lemma EmitsOneMessage(env: Env, bytes: string) returns (m: Message)
    ensures m.WellFormed() && Drain(env, FRESH, bytes).0.out == Events(m)
    ensures Drain(env, FRESH, bytes).0.finished == !m.ending.Going?
  {
    var m0 := Message(None, [], None, Going);
    assert Events(m0) == [];
    m := DrainWritten(env, FRESH, m0, bytes);
  }

  lemma {:induction false} EndedFold(env: Env, s: Stream, ds: seq<string>)
    requires s.finished
    ensures Fold(env, s, ds) == s
  {
    if ds != [] {
      EndedFold(env, s, ds[..|ds| - 1]);
    }
  }

  /** Nothing follows the end of the message or an error. */
  lemma {:induction false} EndedStays(env: Env, s: Stream, buf: string)
    requires s.finished
    ensures Drain(env, s, buf).0 == s
    decreases |buf|
  {
    var i := Gap(buf, 0);
    if 0 <= i {
      EndedFold(env, s, DataOf(buf[..i]));
      EndedStays(env, s, buf[i + 2..]);
    }
  }
}
