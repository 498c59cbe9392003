/**
 How the supervisor keeps a child's output (internal/agent/supervisor.go): a writer that cuts the
 byte stream into lines however it arrives, and a ring buffer that keeps the latest of them.
 */
module LogCapture {
  import opened Numbers
  import opened Sequences
  import opened Text
  import opened RecordFile

  // ---- the ring buffer ----

  /** The latest `n` of the lines a buffer of `cap` still holds; all it holds when `n` is not positive. */
  function Latest(lines: seq<string>, cap: nat, n: int): (tail: seq<string>)
    ensures |tail| == if n <= 0 then Min(|lines|, cap) else Min(n, Min(|lines|, cap))
    ensures tail == lines[|lines| - |tail|..]
  {
    var size := Min(|lines|, cap);
    if n <= 0 || n > size then lines[|lines| - size..] else lines[|lines| - n..]
  }

  lemma ModAdd(y: nat, cap: nat)
    requires y < cap
    ensures (y + cap) % cap == y
  {
    assert (y + cap) / cap == 1;
  }

  lemma Wrap(x: nat, cap: nat)
    requires 0 < cap && x < 2 * cap
    ensures x % cap == if x < cap then x else x - cap
  {
    if x >= cap {
      assert x == 1 * cap + (x - cap);
      assert (x - cap) + 1 * cap == x;
      ModAdd(x - cap, cap);
    }
  }

  /** Where the line `back` places before the write position is. */
  function Slot(pos: nat, cap: nat, back: nat): (i: nat)
    requires pos < cap && 1 <= back <= cap
    ensures i < cap
  {
    if back <= pos then pos - back else pos + cap - back
  }

  class RingBuffer {
    const cap: nat
    const buf: array<string>
    var pos: nat
    var full: bool
    /** Every line ever appended. */
    ghost var lines: seq<string>

    ghost predicate Valid()
      reads this, buf
    {
      && 0 < cap == buf.Length && pos < cap
      && full == (cap <= |lines|)
      && (!full ==> pos == |lines|)
      && forall back | 1 <= back <= Min(|lines|, cap) :: buf[Slot(pos, cap, back)] == lines[|lines| - back]
    }

    constructor (capacity: nat)
      requires 0 < capacity
      ensures Valid() && lines == [] && cap == capacity && fresh(buf)
    {
      cap := capacity;
      buf := new string[capacity](_ => "");
      pos, full, lines := 0, false, [];
    }

    method Append(line: string)
      requires Valid()
      modifies this, buf
      ensures Valid() && lines == old(lines) + [line]
    {
      Wrap(pos + 1, cap);
      buf[pos] := line;
      pos := (pos + 1) % cap;
      if pos == 0 {
        full := true;
      }
      lines := lines + [line];
      forall back | 1 <= back <= Min(|lines|, cap) ensures buf[Slot(pos, cap, back)] == lines[|lines| - back] {
        if 1 < back {
          assert Slot(pos, cap, back) == Slot(old(pos), cap, back - 1);
          assert old(buf[Slot(pos, cap, back - 1)]) == old(lines[|lines| - (back - 1)]);
        }
      }
    }

    method Tail(n: int) returns (out: seq<string>)
      requires Valid()
      ensures out == Latest(lines, cap, n)
    {
      if !full && pos == 0 {
        return [];
      }
      var size := pos;
      if full {
        size := cap;
      }
      var count := n;
      if n <= 0 || n > size {
        count := size;
      }
      out := [];
      for i := size - count to size
        invariant |out| == i - (size - count)
        invariant forall j | 0 <= j < |out| :: out[j] == lines[|lines| - count + j]
      {
        var idx := (pos - size + i + cap) % cap;
        Wrap(pos - size + i + cap, cap);
        assert idx == Slot(pos, cap, size - i);
        out := out + [buf[idx]];
      }
    }
  }

  // ---- the line writer ----

  /** A pending line of this many bytes is recorded without waiting for its newline. */
  const MAX_LOG_LINE: nat := 0x10_0000

  /** What a writer has recorded, and the bytes of the line it is in. */
  datatype Capture = Capture(lines: seq<string>, pending: string)

  const NOTHING: Capture := Capture([], "")

  /** A line as it is recorded: one trailing carriage return is dropped. */
  function Recorded(line: string): string {
    if line != "" && line[|line| - 1] == '\r' then line[..|line| - 1] else line
  }

  /** A line is recorded as it is, or it ends in a carriage return and that alone is missing. */
  lemma RecordedExactly(line: string)
    ensures Recorded(line) == line <==> (line != "" ==> line[|line| - 1] != '\r')
    ensures Recorded(line) != line ==> Recorded(line) + "\r" == line
  {
  }

  function AllRecorded(ls: seq<string>): (r: seq<string>)
    ensures |r| == |ls|
  {
    seq(|ls|, i requires 0 <= i < |ls| => Recorded(ls[i]))
  }

  function Emitted(c: Capture): Capture {
    Capture(c.lines + [Recorded(c.pending)], "")
  }

  /** The stream cut at its newlines and nowhere else, byte by byte. */
  function Split(c: Capture, b: string): Capture {
    if b == "" then c
    else
      var d := Split(c, b[..|b| - 1]);
      if b[|b| - 1] == '\n' then Emitted(d) else Capture(d.lines, d.pending + [b[|b| - 1]])
  }

  /** One write: the bytes are split, and a line that is too long by then is cut. */
  function Written(c: Capture, b: string): Capture {
    var d := Split(c, b);
    if b != "" && |d.pending| >= MAX_LOG_LINE then Emitted(d) else d
  }

  function WrittenAll(chunks: seq<string>): Capture {
    if chunks == [] then NOTHING else Written(WrittenAll(chunks[..|chunks| - 1]), chunks[|chunks| - 1])
  }

  function Concat(chunks: seq<string>): string {
    if chunks == [] then "" else Concat(chunks[..|chunks| - 1]) + chunks[|chunks| - 1]
  }

  lemma {:induction false} SplitConcat(c: Capture, a: string, b: string)
    ensures Split(c, a + b) == Split(Split(c, a), b)
  {
    if b == "" {
      assert a + b == a;
    } else {
      SplitConcat(c, a, b[..|b| - 1]);
      assert (a + b)[..|a + b| - 1] == a + b[..|b| - 1];
    }
  }

  /** Bytes without a newline only lengthen the pending line. */
  lemma {:induction false} SplitWithin(c: Capture, b: string)
    requires NoNewline(b)
    ensures Split(c, b) == Capture(c.lines, c.pending + b)
  {
    if b == "" {
      assert c.pending + b == c.pending;
    } else {
      SplitWithin(c, b[..|b| - 1]);
      assert c.pending + b == (c.pending + b[..|b| - 1]) + [b[|b| - 1]];
    }
  }

  lemma SplitLine(c: Capture, b: string)
    requires NoNewline(b)
    ensures Split(c, b + "\n") == Emitted(Capture(c.lines, c.pending + b))
  {
    SplitWithin(c, b);
    assert (b + "\n")[..|b|] == b;
  }

  lemma {:induction false} RenderSplit(ls: seq<string>)
    requires forall i | 0 <= i < |ls| :: NoNewline(ls[i])
    ensures Split(NOTHING, Render(ls)) == Capture(AllRecorded(ls), "")
  {
    if ls != [] {
      var init, last := ls[..|ls| - 1], ls[|ls| - 1];
      RenderSplit(init);
      SplitConcat(NOTHING, Render(init), last + "\n");
      SplitLine(Split(NOTHING, Render(init)), last);
      assert "" + last == last;
      assert AllRecorded(ls) == AllRecorded(init) + [Recorded(last)];
    } else {
      assert AllRecorded(ls) == [];
    }
  }

  /** The split of a stream is its lines: whatever the lines and the unterminated rest are. */
  lemma {:induction false} SplitIsLines(ls: seq<string>, rest: string)
    requires NoNewline(rest) && forall i | 0 <= i < |ls| :: NoNewline(ls[i])
    ensures Split(NOTHING, Render(ls) + rest) == Capture(AllRecorded(ls), rest)
  {
    RenderSplit(ls);
    SplitConcat(NOTHING, Render(ls), rest);
    SplitWithin(Split(NOTHING, Render(ls)), rest);
    assert "" + rest == rest;
  }

  // ---- chunking does not matter, unless a line is cut ----

  /** No write ends inside a line that has grown too long. */
  ghost predicate NeverTooLong(chunks: seq<string>) {
    forall k | 0 <= k <= |chunks| :: |Split(NOTHING, Concat(chunks[..k])).pending| < MAX_LOG_LINE
  }

  lemma {:induction false} SplitCounts(c: Capture, d: Capture, b: string)
    ensures |Split(c, b).lines| - |c.lines| == |Split(d, b).lines| - |d.lines|
  {
    if b != "" {
      SplitCounts(c, d, b[..|b| - 1]);
    }
  }

  lemma PrefixesOf(chunks: seq<string>)
    requires chunks != []
    ensures var init := chunks[..|chunks| - 1];
      NeverTooLong(chunks) <==> NeverTooLong(init) && |Split(NOTHING, Concat(chunks)).pending| < MAX_LOG_LINE
  {
    var init := chunks[..|chunks| - 1];
    assert forall k | 0 <= k <= |init| :: init[..k] == chunks[..k];
    assert chunks[..|chunks|] == chunks;
  }

  /** The writer never records fewer lines than the split. */
  lemma {:induction false} NoLineLost(chunks: seq<string>)
    ensures |Split(NOTHING, Concat(chunks)).lines| <= |WrittenAll(chunks).lines|
  {
    if chunks != [] {
      var init, last := chunks[..|chunks| - 1], chunks[|chunks| - 1];
      NoLineLost(init);
      SplitConcat(NOTHING, Concat(init), last);
      SplitCounts(Split(NOTHING, Concat(init)), WrittenAll(init), last);
    }
  }

  /**
   The lines recorded are the newline split of the whole stream, whatever the chunks, exactly when no
   write ends inside a line of MAX_LOG_LINE bytes or more.
   */
  lemma {:induction false} ChunksDoNotMatter(chunks: seq<string>)
    ensures WrittenAll(chunks) == Split(NOTHING, Concat(chunks)) <==> NeverTooLong(chunks)
    ensures !NeverTooLong(chunks) ==> |Split(NOTHING, Concat(chunks)).lines| < |WrittenAll(chunks).lines|
  {
    if chunks != [] {
      var init, last := chunks[..|chunks| - 1], chunks[|chunks| - 1];
      ChunksDoNotMatter(init);
      PrefixesOf(chunks);
      var was := Split(NOTHING, Concat(init));
      SplitConcat(NOTHING, Concat(init), last);
      SplitCounts(was, WrittenAll(init), last);
      assert init[..|init|] == init;
      assert last == "" ==> Concat(init) + last == Concat(init);
    }
  }

  /** A line that long is recorded in one piece or in two, by whether its newline comes in the same write. */
  lemma CutDependsOnChunks(line: string)
    requires NoNewline(line) && |line| >= MAX_LOG_LINE
    ensures Concat([line + "\n"]) == Concat([line, "\n"])
    ensures WrittenAll([line + "\n"]) == Capture([Recorded(line)], "")
    ensures WrittenAll([line, "\n"]) == Capture([Recorded(line), ""], "")
  {
    var whole, one, two := [line + "\n"], [line], [line, "\n"];
    assert whole[..0] == [] && one[..0] == [] && two[..1] == one;
    assert "" + line == line && "" + (line + "\n") == line + "\n";
    SplitLine(NOTHING, line);
    SplitWithin(NOTHING, line);
    assert [] + [Recorded(line)] == [Recorded(line)];
    assert WrittenAll(one) == Capture([Recorded(line)], "");
    SplitLine(WrittenAll(one), "");
    assert "" + "\n" == "\n" && [Recorded(line)] + [""] == [Recorded(line), ""];
  }

  /** The length is reached: a mebibyte of one letter is such a line. */
  lemma LongLineExists() returns (line: string)
    ensures NoNewline(line) && |line| >= MAX_LOG_LINE
  {
    line := seq(MAX_LOG_LINE, _ => 'a');
  }

  /** Where a stream stands after some of its bytes: inside one of its lines. */
  lemma {:induction false} InsideALine(ls: seq<string>, rest: string, k: nat)
    requires NoNewline(rest) && forall i | 0 <= i < |ls| :: NoNewline(ls[i])
    requires k <= |Render(ls) + rest|
    ensures var p := Split(NOTHING, (Render(ls) + rest)[..k]).pending;
      |p| <= |rest| || exists i | 0 <= i < |ls| :: |p| <= |ls[i]|
  {
    var s := Render(ls) + rest;
    if k < |Render(ls)| {
      var init, last := ls[..|ls| - 1], ls[|ls| - 1];
      assert s[..k] == Render(ls)[..k];
      if k == |Render(ls)| - 1 {
        assert Render(ls)[..k] == Render(init) + last;
        SplitIsLines(init, last);
      } else {
        assert Render(ls)[..k] == (Render(init) + last)[..k];
        InsideALine(init, last, k);
      }
    } else {
      var m := k - |Render(ls)|;
      assert s[..k] == Render(ls) + rest[..m];
      SplitIsLines(ls, rest[..m]);
    }
  }

  lemma {:induction false} ConcatPrefix(chunks: seq<string>, k: nat)
    requires k <= |chunks|
    ensures Concat(chunks[..k]) <= Concat(chunks)
  {
    if k == |chunks| {
      assert chunks[..k] == chunks;
    } else {
      ConcatPrefix(chunks[..|chunks| - 1], k);
      assert chunks[..|chunks| - 1][..k] == chunks[..k];
    }
  }

  /** With every line under the cut, the lines recorded are the lines of the stream. */
  lemma LinesAsWritten(chunks: seq<string>, ls: seq<string>, rest: string)
    requires NoNewline(rest) && forall i | 0 <= i < |ls| :: NoNewline(ls[i]) && |ls[i]| < MAX_LOG_LINE
    requires |rest| < MAX_LOG_LINE && Concat(chunks) == Render(ls) + rest
    ensures WrittenAll(chunks) == Capture(AllRecorded(ls), rest)
  {
    forall k | 0 <= k <= |chunks|
      ensures |Split(NOTHING, Concat(chunks[..k])).pending| < MAX_LOG_LINE
    {
      ConcatPrefix(chunks, k);
      InsideALine(ls, rest, |Concat(chunks[..k])|);
      assert Concat(chunks[..k]) == (Render(ls) + rest)[..|Concat(chunks[..k])|];
    }
    ChunksDoNotMatter(chunks);
    SplitIsLines(ls, rest);
  }

  lemma CutAt(done: string, rest: string, i: nat)
    requires i < |rest| && rest[i] == '\n'
    ensures done + rest == (done + (rest[..i] + "\n")) + rest[i + 1..]
  {
  }

  lemma WrittenAfter(c: Capture, done: string, rest: string)
    requires rest != ""
    ensures Written(Split(c, done), rest) == Written(c, done + rest)
  {
    SplitConcat(c, done, rest);
  }

  /** What the supervisor's own standard output shows of recorded lines. */
  function EchoOf(id: string, lines: seq<string>): string {
    if lines == [] then ""
    else EchoOf(id, lines[..|lines| - 1]) + ("[" + id + "] " + lines[|lines| - 1] + "\n")
  }

  lemma EchoMore(id: string, lines: seq<string>, line: string)
    ensures EchoOf(id, lines + [line]) == EchoOf(id, lines) + ("[" + id + "] " + line + "\n")
  {
    assert (lines + [line])[..|lines|] == lines;
  }

  /** A child's standard output or standard error; both write into one buffer. */
  class LineWriter {
    const dst: RingBuffer
    const id: string
    var pending: string
    /** What this writer has shown. */
    var echo: string
    /** The lines this writer has recorded; the other writer's may stand between them in the buffer. */
    ghost var recorded: seq<string>

    constructor (dst: RingBuffer, id: string)
      requires dst.Valid()
      ensures this.dst == dst && this.id == id && Valid() && State() == NOTHING
    {
      this.dst, this.id, this.pending, this.echo := dst, id, "", "";
      recorded := [];
    }

    ghost predicate Valid()
      reads this, dst, dst.buf
    {
      dst.Valid() && echo == EchoOf(id, recorded)
    }

    ghost function State(): Capture
      reads this
    {
      Capture(recorded, pending)
    }

    /** The pending bytes become a line. */
    method Emit()
      requires Valid()
      modifies this, dst, dst.buf
      ensures Valid() && State() == Emitted(old(State()))
      ensures recorded == old(recorded) + [Recorded(old(pending))]
      ensures dst.lines == old(dst.lines) + [Recorded(old(pending))]
    {
      var line := Recorded(pending);
      EchoMore(id, recorded, line);
      pending := "";
      dst.Append(line);
      echo := echo + ("[" + id + "] " + line + "\n");
      recorded := recorded + [line];
    }

    /** The bytes up to a newline end the pending line. */
    method TakeLine(line: string)
      requires Valid() && NoNewline(line)
      modifies this, dst, dst.buf
      ensures Valid() && pending == ""
      ensures State() == Split(old(State()), line + "\n")
      ensures recorded == old(recorded) + [Recorded(old(pending) + line)]
      ensures dst.lines == old(dst.lines) + [Recorded(old(pending) + line)]
    {
      SplitLine(State(), line);
      pending := pending + line;
      Emit();
    }

    /** The bytes that end no line, and the cut if they make one too long. */
    method TakeRest(rest: string) returns (ghost added: seq<string>)
      requires Valid() && NoNewline(rest) && rest != ""
      modifies this, dst, dst.buf
      ensures Valid() && State() == Written(old(State()), rest)
      ensures recorded == old(recorded) + added && dst.lines == old(dst.lines) + added
    {
      SplitWithin(State(), rest);
      pending := pending + rest;
      added := [];
      if |pending| >= MAX_LOG_LINE {
        added := [Recorded(pending)];
        Emit();
      }
    }

    /** Every line the bytes complete is recorded, shown and put into the buffer, in order. */
    method Write(b: string) returns (n: nat, ghost added: seq<string>)
      requires Valid()
      modifies this, dst, dst.buf
      ensures Valid() && n == |b|
      ensures State() == Written(old(State()), b)
      ensures recorded == old(recorded) + added && dst.lines == old(dst.lines) + added
    {
      n, added := |b|, [];
      var rest := b;
      ghost var c, done := State(), "";
      while rest != ""
        invariant Valid() && b == done + rest
        invariant State() == Split(c, done)
        invariant done != "" ==> pending == ""
        invariant recorded == old(recorded) + added && dst.lines == old(dst.lines) + added
        decreases |rest|
      {
        var i := IndexOf(rest, '\n');
        if i < 0 {
          WrittenAfter(c, done, rest);
          ghost var more := TakeRest(rest);
          Regroup(old(recorded), added, more);
          Regroup(old(dst.lines), added, more);
          added := added + more;
          return;
        }
        ghost var line, more := rest[..i] + "\n", [Recorded(pending + rest[..i])];
        SplitConcat(c, done, line);
        TakeLine(rest[..i]);
        Regroup(old(recorded), added, more);
        Regroup(old(dst.lines), added, more);
        added := added + more;
        CutAt(done, rest, i);
        done := done + line;
        rest := rest[i + 1..];
      }
      assert b == done;
    }

    /** The last line of a child that did not end it, if there is one. */
    method Flush()
      requires Valid()
      modifies this, dst, dst.buf
      ensures Valid()
      ensures State() == if old(pending) == "" then old(State()) else Emitted(old(State()))
      ensures dst.lines == old(dst.lines) + if old(pending) == "" then [] else [Recorded(old(pending))]
    {
      if |pending| > 0 {
        Emit();
      }
    }
  }
}
