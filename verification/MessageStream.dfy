/**
 The stream translator of the Messages API (AnthropicWriter in internal/api/anthropic.go): chat stream
 bytes in, block-structured Messages events out. Decoding a chunk's JSON is a parameter.
 */
module MessageStream {
  import opened Text

  datatype ToolCall = ToolCall(index: Option<int>, id: string, name: string, arguments: string)

  datatype Choice = Choice(content: Option<string>, toolCalls: seq<ToolCall>, finishReason: Option<string>)

  datatype Usage = Usage(promptTokens: int, completionTokens: int)

  datatype Chunk = Chunk(model: string, choices: seq<Choice>, usage: Option<Usage>, error: Option<string>)

  /** json.Unmarshal of one chunk, and the model name of the request. */
  datatype Env = Env(decode: string -> Option<Chunk>, model: string)

  /** A tool_use block's id: the engine's, or one drawn at random when it gave none. */
  datatype ToolId = Given(id: string) | Drawn

  datatype Kind = TextBlock | ToolBlock(id: ToolId, name: string)

  datatype Event =
    | MessageStart(model: string)
    | Ping
    | BlockStart(index: int, kind: Kind)
    | TextDelta(index: int, text: string)
    | JsonDelta(index: int, json: string)
    | BlockStop(index: int)
    | MessageDelta(stopReason: string, usage: Option<Usage>)
    | MessageStop
    | ErrorEvent(message: string)

  /** The writer's stream state and what it has emitted. `open` is -1 when no block is open. */
  datatype Stream = Stream(started: bool, finished: bool, open: int, openText: bool, next: nat,
                           toolBlock: map<int, int>, out: seq<Event>)

  const FRESH := Stream(false, false, -1, false, 0, map[], [])

  /** The Messages stop reason of a chat finish reason. */
  function StopReason(finish: string): (reason: string)
    ensures reason == "max_tokens" <==> finish == "length"
    ensures reason == "tool_use" <==> finish in ["tool_calls", "function_call"]
    ensures reason != "max_tokens" && reason != "tool_use" ==> reason == "end_turn"
  {
    if finish == "length" then "max_tokens"
    else if finish == "tool_calls" || finish == "function_call" then "tool_use"
    else "end_turn"
  }

  function Emit(s: Stream, e: Event): Stream {
    s.(out := s.out + [e])
  }

  function CloseBlock(s: Stream): Stream {
    if s.open < 0 then s else Emit(s, BlockStop(s.open)).(open := -1, openText := false)
  }

  function OpenBlock(s: Stream, kind: Kind): Stream {
    Emit(s, BlockStart(s.next, kind)).(open := s.next, openText := kind.TextBlock?, next := s.next + 1)
  }

  /** What a chunk says, in order: at most one piece of text, then fragments of tool calls. */
  datatype Piece = Words(text: string) | Call(idx: int, id: string, name: string, args: string)

  function WritePiece(s: Stream, p: Piece): Stream {
    match p
    case Words(text) =>
      var s' := if s.openText then s else OpenBlock(CloseBlock(s), TextBlock);
      Emit(s', TextDelta(s'.open, text))
    case Call(idx, id, name, args) =>
      if idx in s.toolBlock && s.toolBlock[idx] != s.open then s
      else
        var s' :=
          if idx in s.toolBlock then s
          else
            var o := OpenBlock(CloseBlock(s), ToolBlock(if id == "" then Drawn else Given(id), name));
            o.(toolBlock := o.toolBlock[idx := o.open]);
        if args == "" then s' else Emit(s', JsonDelta(s'.open, args))
  }

  function WriteAll(s: Stream, ps: seq<Piece>): Stream {
    if ps == [] then s else WritePiece(WriteAll(s, ps[..|ps| - 1]), ps[|ps| - 1])
  }

  function CallPiece(tc: ToolCall, k: nat): Piece {
    Call(if tc.index.Some? then tc.index.value else k, tc.id, tc.name, tc.arguments)
  }

  function CallPieces(tcs: seq<ToolCall>, k: nat): seq<Piece>
    requires k <= |tcs|
  {
    if k == 0 then [] else CallPieces(tcs, k - 1) + [CallPiece(tcs[k - 1], k - 1)]
  }

  function WordPieces(content: Option<string>): seq<Piece> {
    if content.Some? && content.value != "" then [Words(content.value)] else []
  }

  function Pieces(ch: Choice): seq<Piece> {
    WordPieces(ch.content) + CallPieces(ch.toolCalls, |ch.toolCalls|)
  }

  function Start(env: Env, s: Stream, model: string): Stream {
    if s.started then s
    else Emit(Emit(s, MessageStart(if model != "" then model else env.model)), Ping).(started := true)
  }

  function Finish(s: Stream, reason: Option<string>, usage: Option<Usage>): Stream {
    if reason.None? then s
    else Emit(Emit(CloseBlock(s), MessageDelta(StopReason(reason.value), usage)), MessageStop).(finished := true)
  }

  /** One chunk of the chat stream. */
  function Step(env: Env, s: Stream, data: string): Stream {
    if s.finished || data == "[DONE]" then s
    else
      match env.decode(data)
      case None => s
      case Some(c) =>
        if c.error.Some? then Emit(s, ErrorEvent(c.error.value)).(finished := true)
        else
          var s' := Start(env, s, c.model);
          if c.choices == [] then s'
          else Finish(WriteAll(s', Pieces(c.choices[0])), c.choices[0].finishReason, c.usage)
  }

  function Fold(env: Env, s: Stream, ds: seq<string>): Stream {
    if ds == [] then s else Step(env, Fold(env, s, ds[..|ds| - 1]), ds[|ds| - 1])
  }

  // ---- framing ----

  predicate BlankAt(s: string, j: nat)
    requires j < |s| - 1
  {
    s[j] == '\n' && s[j + 1] == '\n'
  }

  /** The position of the first blank line's two newlines, or -1. */
  function Gap(s: string, k: nat): (i: int)
    requires k <= |s|
    ensures i < 0 ==> forall j | k <= j < |s| - 1 :: !BlankAt(s, j)
    ensures 0 <= i ==> k <= i < |s| - 1 && BlankAt(s, i)
    ensures 0 <= i ==> forall j | k <= j < i :: !BlankAt(s, j)
    decreases |s| - k
  {
    if k + 1 >= |s| then -1 else if BlankAt(s, k) then k else Gap(s, k + 1)
  }

  const DATA := "data: "

  /** strings.Split(s, "\n"). */
  function SplitLines(s: string): seq<string>
    decreases |s|
  {
    var i := IndexOf(s, '\n');
    if i < 0 then [s] else [s[..i]] + SplitLines(s[i + 1..])
  }

  function DataLine(line: string): seq<string> {
    if DATA <= line then [line[|DATA|..]] else []
  }

  function DataIn(lines: seq<string>): seq<string> {
    if lines == [] then [] else DataIn(lines[..|lines| - 1]) + DataLine(lines[|lines| - 1])
  }

  /** The data of an event's lines. */
  function DataOf(event: string): seq<string> {
    DataIn(SplitLines(event))
  }

  /** Every complete event in the buffer, and what is left of it. */
  function Drain(env: Env, s: Stream, buf: string): (Stream, string)
    decreases |buf|
  {
    var i := Gap(buf, 0);
    if i < 0 then (s, buf) else Drain(env, Fold(env, s, DataOf(buf[..i])), buf[i + 2..])
  }

  lemma DrainFirst(env: Env, s: Stream, buf: string, i: nat)
    requires Gap(buf, 0) == i
    ensures Drain(env, s, buf) == Drain(env, Fold(env, s, DataOf(buf[..i])), buf[i + 2..])
  {
  }

  lemma GapStays(a: string, b: string, i: nat)
    requires Gap(a, 0) == i
    ensures Gap(a + b, 0) == i
  {
    var s := a + b;
    assert forall j | 0 <= j < |a| :: s[j] == a[j];
    assert forall j | 0 <= j < |a| - 1 :: BlankAt(s, j) == BlankAt(a, j);
  }

  /** Feeding more bytes after some is feeding them all at once. */
  lemma {:induction false} DrainMore(env: Env, s: Stream, a: string, b: string)
    ensures var (s', rest) := Drain(env, s, a); Drain(env, s', rest + b) == Drain(env, s, a + b)
    decreases |a|
  {
    var i := Gap(a, 0);
    if 0 <= i {
      var event, rest := a[..i], a[i + 2..];
      GapStays(a, b, i);
      assert (a + b)[..i] == event && (a + b)[i + 2..] == rest + b;
      DrainFirst(env, s, a, i);
      DrainFirst(env, s, a + b, i);
      DrainMore(env, Fold(env, s, DataOf(event)), rest, b);
    }
  }

  lemma DrainedAfter(env: Env, s: Stream, buf: string, written: string, p: string)
    requires (s, buf) == Drain(env, FRESH, written)
    ensures Drain(env, s, buf + p) == Drain(env, FRESH, written + p)
  {
    DrainMore(env, FRESH, written, p);
  }

  lemma OnePiece(s: Stream, p: Piece)
    ensures WriteAll(s, [p]) == WritePiece(s, p)
  {
    assert [p][..0] == [];
  }

  lemma NoFragment(ps: seq<Piece>, tcs: seq<ToolCall>)
    ensures ps + CallPieces(tcs, 0) == ps
  {
  }

  lemma NextFragment(s: Stream, ps: seq<Piece>, tcs: seq<ToolCall>, k: nat)
    requires k < |tcs|
    ensures WriteAll(s, ps + CallPieces(tcs, k + 1)) ==
            WritePiece(WriteAll(s, ps + CallPieces(tcs, k)), CallPiece(tcs[k], k))
  {
    var done, p := ps + CallPieces(tcs, k), CallPiece(tcs[k], k);
    assert ps + CallPieces(tcs, k + 1) == done + [p];
    assert (done + [p])[..|done|] == done;
  }

  // ---- the writer ----

  class AnthropicWriter {
    const env: Env
    var status: int
    var header: bool    // a status is fixed
    var stream: bool    // what follows is translated event by event
    var buf: string
    var started: bool
    var finished: bool
    var open: int
    var openText: bool
    var next: nat
    var toolBlock: map<int, int>
    var out: seq<Event>

    /** All bytes the handler has written. */
    ghost var written: string

    function View(): Stream
      reads this
    {
      Stream(started, finished, open, openText, next, toolBlock, out)
    }

    /** A stream is translated as far as its events are complete; any other answer is only buffered. */
    ghost predicate Valid()
      reads this
    {
      && (!header ==> !stream && written == "")
      && (stream ==> status < 300)
      && if stream then (View(), buf) == Drain(env, FRESH, written) else View() == FRESH && buf == written
    }

    constructor (env: Env)
      ensures this.env == env && written == "" && !header && status == 200 && Valid()
    {
      this.env := env;
      status, header, stream := 200, false, false;
      buf, started, finished, open, openText, next, toolBlock, out := "", false, false, -1, false, 0, map[], [];
      written := "";
    }

    method EmitEvent(e: Event)
      modifies this`out
      ensures View() == Emit(old(View()), e)
    {
      out := out + [e];
    }

    method OpenNew(kind: Kind)
      modifies this`open, this`openText, this`next, this`out
      ensures View() == OpenBlock(old(View()), kind)
    {
      open, openText := next, kind.TextBlock?;
      next := next + 1;
      EmitEvent(BlockStart(open, kind));
    }

    method CloseOpen()
      modifies this`open, this`openText, this`out
      ensures View() == CloseBlock(old(View()))
    {
      if open < 0 {
        return;
      }
      EmitEvent(BlockStop(open));
      open, openText := -1, false;
    }

    method Content(text: string)
      modifies this`open, this`openText, this`next, this`out
      ensures View() == WritePiece(old(View()), Words(text))
    {
      if !openText {
        CloseOpen();
        OpenNew(TextBlock);
      }
      EmitEvent(TextDelta(open, text));
    }

    method Fragment(k: nat, tc: ToolCall)
      modifies this`open, this`openText, this`next, this`toolBlock, this`out
      ensures View() == WritePiece(old(View()), CallPiece(tc, k))
    {
      var idx := k;
      if tc.index.Some? {
        idx := tc.index.value;
      }
      var seen := idx in toolBlock;
      if !seen || toolBlock[idx] != open {
        if !seen {
          CloseOpen();
          OpenNew(ToolBlock(if tc.id == "" then Drawn else Given(tc.id), tc.name));
          toolBlock := toolBlock[idx := open];
        } else {
          return;
        }
      }
      if tc.arguments != "" {
        EmitEvent(JsonDelta(open, tc.arguments));
      }
    }

    /** The fragments of a choice, after what has been written of it. */
    method WriteCalls(tcs: seq<ToolCall>, ghost s: Stream, ghost ps: seq<Piece>)
      requires View() == WriteAll(s, ps)
      modifies this`open, this`openText, this`next, this`toolBlock, this`out
      ensures View() == WriteAll(s, ps + CallPieces(tcs, |tcs|))
    {
      NoFragment(ps, tcs);
      for k := 0 to |tcs|
        invariant View() == WriteAll(s, ps + CallPieces(tcs, k))
      {
        NextFragment(s, ps, tcs, k);
        Fragment(k, tcs[k]);
      }
    }

    method WriteChoice(ch: Choice)
      modifies this`open, this`openText, this`next, this`toolBlock, this`out
      ensures View() == WriteAll(old(View()), Pieces(ch))
    {
      ghost var s, ps := View(), WordPieces(ch.content);
      if ch.content.Some? && ch.content.value != "" {
        Content(ch.content.value);
        OnePiece(s, Words(ch.content.value));
      }
      WriteCalls(ch.toolCalls, s, ps);
    }

    /** One chunk of the chat stream. */
    method TranslateChunk(data: string)
      modifies this`started, this`finished, this`open, this`openText, this`next, this`toolBlock, this`out
      ensures View() == Step(env, old(View()), data)
    {
      if finished || data == "[DONE]" {
        return;
      }
      var decoded := env.decode(data);
      if decoded.None? {
        return;
      }
      var c := decoded.value;
      if c.error.Some? {
        EmitEvent(ErrorEvent(c.error.value));
        finished := true;
        return;
      }
      if !started {
        started := true;
        EmitEvent(MessageStart(if c.model != "" then c.model else env.model));
        EmitEvent(Ping);
      }
      if |c.choices| == 0 {
        return;
      }
      var ch := c.choices[0];
      WriteChoice(ch);
      if ch.finishReason.Some? {
        CloseOpen();
        EmitEvent(MessageDelta(StopReason(ch.finishReason.value), c.usage));
        EmitEvent(MessageStop);
        finished := true;
      }
    }

    method TranslateEvent(event: string)
      modifies this`started, this`finished, this`open, this`openText, this`next, this`toolBlock, this`out
      ensures View() == Fold(env, old(View()), DataOf(event))
    {
      var lines := SplitLines(event);
      for k := 0 to |lines|
        invariant View() == Fold(env, old(View()), DataIn(lines[..k]))
      {
        assert lines[..k + 1][..k] == lines[..k];
        ghost var before := DataIn(lines[..k]);
        if DATA <= lines[k] {
          TranslateChunk(lines[k][|DATA|..]);
          assert (before + DataLine(lines[k]))[..|before|] == before;
        } else {
          assert before + DataLine(lines[k]) == before;
        }
      }
      assert lines[..|lines|] == lines;
    }

    /** The first status counts; `sse` is whether the headers then name an event stream. */
    method WriteHeader(code: int, sse: bool)
      requires Valid()
      modifies this`status, this`header, this`stream
      ensures Valid() && header
      ensures old(header) ==> status == old(status) && stream == old(stream)
      ensures !old(header) ==> status == code && stream == (code < 300 && sse)
    {
      if header {
        return;
      }
      header, status := true, code;
      stream := code < 300 && sse;
    }

    /** Every complete event in the buffer. */
    method DrainBuffer()
      modifies this`buf, this`started, this`finished, this`open, this`openText, this`next, this`toolBlock, this`out
      ensures (View(), buf) == Drain(env, old(View()), old(buf))
    {
      ghost var all := Drain(env, View(), buf);
      var i := Gap(buf, 0);
      while i >= 0
        invariant i == Gap(buf, 0) && Drain(env, View(), buf) == all
        decreases |buf|
      {
        var event := buf[..i];
        buf := buf[i + 2..];
        TranslateEvent(event);
        i := Gap(buf, 0);
      }
    }

    /** The bytes join the buffer, and a stream is drained. */
    method Feed(p: string)
      requires Valid() && header
      modifies this
      ensures written == old(written) + p && Valid()
      ensures header && status == old(status) && stream == old(stream)
    {
      if stream {
        DrainedAfter(env, View(), buf, written, p);
      }
      written := written + p;
      buf := buf + p;
      if stream {
        DrainBuffer();
      }
    }

    /** Whatever the split into Write calls, the writer is where one call with all the bytes would be. */
    method Write(p: string, sse: bool) returns (n: nat)
      requires Valid()
      modifies this
      ensures written == old(written) + p && Valid() && header && n == |p|
      ensures status == if old(header) then old(status) else 200
      ensures stream == if old(header) then old(stream) else sse
    {
      if !header {
        WriteHeader(200, sse);
      }
      Feed(p);
      return |p|;
    }
  }
}
