/**
 The progress record of a batch run (internal/batch/record.go), at the level of the bytes in its
 three files. A file that does not exist is the empty file.
 */
module RecordFile {
  import opened Text
  import opened Sequences

  datatype Code = Answered | InvalidRequest | RequestFailed | Interrupted | Cancelled

  /** The result object of one input line. `code` names what the object says; `rest` is the rest of
      its JSON text after the id, and it decides nothing here except that it holds no newline
      (json.Marshal never writes one) and closes the object. */
  datatype Entry = Entry(line: nat, code: Code, rest: string) {
    predicate Valid() {
      NoNewline(rest) && rest != "" && rest[|rest| - 1] == '}'
    }
  }

  const ID_PREFIX := "batch_req_"

  const MARK_HEAD := "{\"line\":"

  const ID_HEAD := "{\"id\":\""

  // ---- result ids ----

  function ReqId(n: nat): string {
    ID_PREFIX + Itoa(n)
  }

  function LineOf(id: string): Option<nat> {
    if !(ID_PREFIX <= id) then None
    else
      match Atoi(id[|ID_PREFIX|..])
      case None => None
      case Some(n) => if n >= 0 then Some(n) else None
  }

  lemma LineOfReqId(n: nat)
    ensures LineOf(ReqId(n)) == Some(n)
  {
    ParseDigitsItoa(n);
    assert ReqId(n)[|ID_PREFIX|..] == Itoa(n);
  }

  /** An id names one line only: equal ids come from equal line numbers. */
  lemma ReqIdInjective(m: nat, n: nat)
    requires ReqId(m) == ReqId(n)
    ensures m == n
  {
    LineOfReqId(m);
    LineOfReqId(n);
  }

  // ---- lines on disk ----

  /** An ASCII byte that is no space. */
  predicate Solid(c: char) {
    c < '\U{80}' && !AsciiSpace(c)
  }

  /** A record line as this program writes one: no newline inside, nothing to trim. */
  predicate WholeLine(l: string) {
    NoNewline(l) && l != "" && Solid(l[0]) && Solid(l[|l| - 1])
  }

  function Render(ls: seq<string>): string {
    if ls == [] then "" else Render(ls[..|ls| - 1]) + (ls[|ls| - 1] + "\n")
  }

  function NonBlank(piece: string): seq<string> {
    if Trim(piece) == "" then [] else [Trim(piece)]
  }

  /** What `scan` hands to its callback: every non-blank line, trimmed, an unterminated last one too. */
  function Lines(s: string): seq<string>
    decreases |s|
  {
    var i := IndexOf(s, '\n');
    if i < 0 then NonBlank(s) else NonBlank(s[..i + 1]) + Lines(s[i + 1..])
  }

  lemma RenderComplete(ls: seq<string>)
    ensures Complete(Render(ls)) == Render(ls)
  {
  }

  lemma RenderAppend(ls: seq<string>, l: string)
    ensures Render(ls + [l]) == Render(ls) + (l + "\n")
  {
    assert (ls + [l])[..|ls|] == ls;
  }

  lemma TrimWhole(l: string)
    requires WholeLine(l)
    ensures NonBlank(l + "\n") == [l]
  {
    assert TrimLeft(l + "\n") == l + "\n";
    assert (l + "\n")[..|l|] == l;
    assert TrimRight(l + "\n") == TrimRight(l) == l;
  }

  lemma LinesCons(head: string, rest: string)
    requires NoNewline(head)
    ensures Lines(head + "\n" + rest) == NonBlank(head + "\n") + Lines(rest)
  {
    var s := head + "\n" + rest;
    IndexOfHead(head, '\n', rest);
    assert s[..|head| + 1] == head + "\n";
    assert s[|head| + 1..] == rest;
  }

  lemma FirstLine(s: string) returns (head: string, rest: string)
    requires !NoNewline(s)
    ensures NoNewline(head) && s == head + "\n" + rest
    ensures |rest| < |s| && (rest != "" ==> rest[|rest| - 1] == s[|s| - 1])
  {
    var i := IndexOf(s, '\n');
    head, rest := s[..i], s[i + 1..];
  }

  lemma LinesEmpty()
    ensures Lines("") == []
  {
  }

  lemma {:induction false} LinesAppend(s: string, l: string)
    requires WholeLine(l) && (s == "" || s[|s| - 1] == '\n')
    ensures Lines(s + (l + "\n")) == Lines(s) + [l]
    decreases |s|
  {
    var text := l + "\n";
    TrimWhole(l);
    if s == "" {
      LinesCons(l, "");
      assert text + "" == text && s + text == text;
      LinesEmpty();
    } else {
      var head, rest := FirstLine(s);
      LinesCons(head, rest);
      LinesCons(head, rest + text);
      Regroup(head + "\n", rest, text);
      LinesAppend(rest, l);
      Regroup(NonBlank(head + "\n"), Lines(rest), [l]);
    }
  }

  lemma RenderEnds(ls: seq<string>)
    ensures Render(ls) == "" || Render(ls)[|Render(ls)| - 1] == '\n'
  {
  }

  lemma LinesRenderMore(ls: seq<string>, l: string)
    requires WholeLine(l) && Lines(Render(ls)) == ls
    ensures Lines(Render(ls + [l])) == ls + [l]
  {
    RenderAppend(ls, l);
    RenderEnds(ls);
    LinesAppend(Render(ls), l);
  }

  /** Reading back what was written: scanning a file of whole lines gives those lines. */
  lemma {:induction false} LinesRender(ls: seq<string>)
    requires forall l <- ls :: WholeLine(l)
    ensures Lines(Render(ls)) == ls
  {
    if ls == [] {
      LinesEmpty();
    } else {
      var init, last := ls[..|ls| - 1], ls[|ls| - 1];
      LinesRender(init);
      LinesRenderMore(init, last);
      assert ls == init + [last];
    }
  }

  /** A kill while a line is written leaves some prefix of it. Repair keeps the line exactly when all
      of it, newline included, had landed, and otherwise cuts back to the lines before. */
  lemma TornAppend(ls: seq<string>, l: string, k: nat)
    requires WholeLine(l) && k <= |l| + 1
    ensures Complete(Render(ls) + (l + "\n")[..k]) == if k == |l| + 1 then Render(ls + [l]) else Render(ls)
  {
    RenderAppend(ls, l);
    var torn := (l + "\n")[..k];
    if k == |l| + 1 {
      assert torn == l + "\n";
      RenderComplete(ls + [l]);
    } else {
      assert torn == l[..k];
      var s := Render(ls) + torn;
      assert s[..|Render(ls)|] == Render(ls);
      CompleteUnique(s, |Render(ls)|);
    }
  }

  /** Repairing twice changes nothing more. */
  lemma RepairIdempotent(s: string)
    ensures Complete(Complete(s)) == Complete(s)
  {
  }

  // ---- sent marks ----

  function MarkText(n: nat): string {
    MARK_HEAD + Itoa(n) + "}"
  }

  function MarkTexts(ns: seq<nat>): (r: seq<string>)
    ensures |r| == |ns|
  {
    seq(|ns|, i requires 0 <= i < |ns| => MarkText(ns[i]))
  }

  lemma MarkWhole(n: nat)
    ensures WholeLine(MarkText(n))
  {
    var t := MarkText(n);
    assert NoNewline(MARK_HEAD) && NoNewline(Itoa(n));
    assert t[0] == '{';
  }

  // ---- results ----

  function EntryText(e: Entry): string {
    ID_HEAD + ReqId(e.line) + "\"" + e.rest
  }

  function EntryTexts(es: seq<Entry>): (r: seq<string>)
    ensures |r| == |es|
  {
    seq(|es|, i requires 0 <= i < |es| => EntryText(es[i]))
  }

  lemma EntryWhole(e: Entry)
    requires e.Valid()
    ensures WholeLine(EntryText(e))
  {
    var t, id := EntryText(e), ReqId(e.line);
    assert NoNewline(ID_HEAD) && NoNewline(id);
    assert t[0] == '{' && t[|t| - 1] == e.rest[|e.rest| - 1];
  }

  // ---- reading records back ----

  /** json.Unmarshal of one line into a mark's line, and into a result's id. */
  datatype Unmarshal = Unmarshal(mark: string -> Option<nat>, id: string -> Option<string>)

  /** It reads what this program writes; what it makes of other texts is its own affair. */
  ghost predicate ReadsOwn(u: Unmarshal) {
    && (forall n: nat :: u.mark(MarkText(n)) == Some(n))
    && (forall e: Entry | e.Valid() :: u.id(EntryText(e)) == Some(ReqId(e.line)))
  }

  function OwnMark(t: string): Option<nat> {
    if |t| > |MARK_HEAD| && MARK_HEAD <= t && t[|t| - 1] == '}'
    then ParseDigits(t[|MARK_HEAD|..|t| - 1])
    else None
  }

  function OwnId(t: string): Option<string> {
    if ID_HEAD <= t then
      var body := t[|ID_HEAD|..];
      var q := IndexOf(body, '"');
      if q < 0 then None else Some(body[..q])
    else None
  }

  /** The least that reads them: nothing but the program's own spelling. */
  const OWN := Unmarshal(t => OwnMark(t), t => OwnId(t))

  lemma OwnMarkReads(n: nat)
    ensures OwnMark(MarkText(n)) == Some(n)
  {
    var t := MarkText(n);
    ParseDigitsItoa(n);
    assert t[|MARK_HEAD|..|t| - 1] == Itoa(n);
  }

  lemma OwnIdReads(e: Entry)
    ensures OwnId(EntryText(e)) == Some(ReqId(e.line))
  {
    var t, id := EntryText(e), ReqId(e.line);
    var body := t[|ID_HEAD|..];
    assert body == id + "\"" + e.rest;
    assert Lacks(id, '"');
    IndexOfHead(id, '"', e.rest);
    assert body[..|id|] == id;
  }

  lemma OwnReads()
    ensures ReadsOwn(OWN)
  {
    forall n: nat ensures OwnMark(MarkText(n)) == Some(n) {
      OwnMarkReads(n);
    }
    forall e: Entry | e.Valid() ensures OwnId(EntryText(e)) == Some(ReqId(e.line)) {
      OwnIdReads(e);
    }
  }

  type Reader = u: Unmarshal | ReadsOwn(u) ghost witness (OwnReads(); OWN)

  const OWN_READER: Reader := (OwnReads(); OWN)

  /** The line a result object answers: its id, read back. */
  function ParseEntry(rd: Reader, t: string): Option<nat> {
    match rd.id(t)
    case None => None
    case Some(id) => LineOf(id)
  }

  lemma MarkRoundTrip(rd: Reader, n: nat)
    ensures WholeLine(MarkText(n)) && rd.mark(MarkText(n)) == Some(n)
  {
    MarkWhole(n);
  }

  lemma EntryRoundTrip(rd: Reader, e: Entry)
    requires e.Valid()
    ensures WholeLine(EntryText(e)) && ParseEntry(rd, EntryText(e)) == Some(e.line)
  {
    EntryWhole(e);
    LineOfReqId(e.line);
  }

  /** The marks a scan collects, in file order. */
  function MarksOf(rd: Reader, ls: seq<string>): seq<nat> {
    if ls == [] then []
    else
      MarksOf(rd, ls[..|ls| - 1]) +
      match rd.mark(ls[|ls| - 1]) { case None => [] case Some(n) => [n] }
  }

  lemma {:induction false} MarksOfTexts(rd: Reader, ns: seq<nat>)
    ensures forall l <- MarkTexts(ns) :: WholeLine(l)
    ensures MarksOf(rd, MarkTexts(ns)) == ns
  {
    if ns != [] {
      var init := ns[..|ns| - 1];
      MarksOfTexts(rd, init);
      MarkRoundTrip(rd, ns[|ns| - 1]);
      assert MarkTexts(ns)[..|ns| - 1] == MarkTexts(init);
      assert MarkTexts(ns) == MarkTexts(init) + [MarkText(ns[|ns| - 1])];
    }
  }

  /** The finished lines and the count a scan of one result file adds to `done`. */
  function Tally(rd: Reader, ls: seq<string>, done: set<nat>): (set<nat>, nat) {
    if ls == [] then (done, 0)
    else
      var (d, k) := Tally(rd, ls[..|ls| - 1], done);
      match ParseEntry(rd, ls[|ls| - 1])
      case None => (d, k)
      case Some(n) => if n in d then (d, k) else (d + {n}, k + 1)
  }

  /** The lines answered by the whole objects of a result file, in file order. */
  function IdsOf(rd: Reader, ls: seq<string>): seq<nat> {
    if ls == [] then []
    else
      IdsOf(rd, ls[..|ls| - 1]) +
      match ParseEntry(rd, ls[|ls| - 1]) { case None => [] case Some(n) => [n] }
  }

  lemma EntryTextsInit(es: seq<Entry>)
    requires es != []
    ensures EntryTexts(es) == EntryTexts(es[..|es| - 1]) + [EntryText(es[|es| - 1])]
    ensures EntryTexts(es)[..|es| - 1] == EntryTexts(es[..|es| - 1])
  {
  }

  function LinesOf(es: seq<Entry>): (r: seq<nat>)
    ensures |r| == |es|
    ensures forall i | 0 <= i < |es| :: r[i] == es[i].line
  {
    seq(|es|, i requires 0 <= i < |es| => es[i].line)
  }

  lemma IdsMore(rd: Reader, ls: seq<string>, l: string, n: nat)
    requires ParseEntry(rd, l) == Some(n)
    ensures IdsOf(rd, ls + [l]) == IdsOf(rd, ls) + [n]
  {
    assert (ls + [l])[..|ls|] == ls;
  }

  lemma {:induction false} IdsOfTexts(rd: Reader, es: seq<Entry>)
    requires forall e <- es :: e.Valid()
    ensures IdsOf(rd, EntryTexts(es)) == LinesOf(es)
  {
    if es != [] {
      var init, last := es[..|es| - 1], es[|es| - 1];
      IdsOfTexts(rd, init);
      EntryRoundTrip(rd, last);
      EntryTextsInit(es);
      IdsMore(rd, EntryTexts(init), EntryText(last), last.line);
      assert LinesOf(es) == LinesOf(init) + [last.line];
    }
  }

  ghost predicate Distinct(ns: seq<nat>) {
    forall i, j | 0 <= i < j < |ns| :: ns[i] != ns[j]
  }

  function ToSet(ns: seq<nat>): set<nat> {
    set n | n in ns
  }

  lemma TallyMore(rd: Reader, ls: seq<string>, l: string, n: nat, done: set<nat>)
    requires ParseEntry(rd, l) == Some(n) && n !in Tally(rd, ls, done).0
    ensures Tally(rd, ls + [l], done) == (Tally(rd, ls, done).0 + {n}, Tally(rd, ls, done).1 + 1)
  {
    assert (ls + [l])[..|ls|] == ls;
  }

  lemma LinesOfInit(es: seq<Entry>)
    requires es != [] && Distinct(LinesOf(es))
    ensures var init, n := es[..|es| - 1], es[|es| - 1].line;
            && Distinct(LinesOf(init)) && n !in LinesOf(init)
            && ToSet(LinesOf(es)) == ToSet(LinesOf(init)) + {n}
  {
    var init, n := es[..|es| - 1], es[|es| - 1].line;
    assert LinesOf(es) == LinesOf(init) + [n];
    assert forall i | 0 <= i < |init| :: LinesOf(es)[i] == LinesOf(init)[i];
  }

  /** Scanning a result file whose lines are new and distinct finds each and counts each once. */
  lemma {:induction false} TallyTexts(rd: Reader, es: seq<Entry>, done: set<nat>)
    requires forall e <- es :: e.Valid()
    requires Distinct(LinesOf(es)) && ToSet(LinesOf(es)) !! done
    ensures forall l <- EntryTexts(es) :: WholeLine(l)
    ensures Tally(rd, EntryTexts(es), done) == (done + ToSet(LinesOf(es)), |es|)
  {
    if es == [] {
      assert done + ToSet(LinesOf(es)) == done;
    } else {
      var init, last := es[..|es| - 1], es[|es| - 1];
      LinesOfInit(es);
      TallyTexts(rd, init, done);
      EntryRoundTrip(rd, last);
      EntryTextsInit(es);
      TallyMore(rd, EntryTexts(init), EntryText(last), last.line, done);
      assert done + ToSet(LinesOf(es)) == done + ToSet(LinesOf(init)) + {last.line};
    }
  }

  // ---- opening a record ----

  /** What a run knows of the runs before it: read once, at open. */
  datatype Snapshot = Snapshot(sent: set<nat>, finished: set<nat>, okCount: nat, failCount: nat)

  function Resume(rd: Reader, sentData: string, outData: string, errData: string): Snapshot {
    var (done, ok) := Tally(rd, Lines(Complete(outData)), {});
    var (done', fail) := Tally(rd, Lines(Complete(errData)), done);
    Snapshot(ToSet(MarksOf(rd, Lines(Complete(sentData)))), done', ok, fail)
  }

  /** Whatever a kill tore off the three files, a resume reads exactly the whole records in them. */
  lemma ResumeReadsWholeRecords(rd: Reader, sentData: string, outData: string, errData: string,
                                marks: seq<nat>, outs: seq<Entry>, errs: seq<Entry>)
    requires Complete(sentData) == Render(MarkTexts(marks))
    requires Complete(outData) == Render(EntryTexts(outs))
    requires Complete(errData) == Render(EntryTexts(errs))
    requires (forall e <- outs :: e.Valid()) && forall e <- errs :: e.Valid()
    requires Distinct(LinesOf(outs)) && Distinct(LinesOf(errs)) && ToSet(LinesOf(outs)) !! ToSet(LinesOf(errs))
    ensures Resume(rd, sentData, outData, errData) ==
            Snapshot(ToSet(marks), ToSet(LinesOf(outs)) + ToSet(LinesOf(errs)), |outs|, |errs|)
  {
    var a := ToSet(LinesOf(outs));
    MarksOfTexts(rd, marks);
    LinesRender(MarkTexts(marks));
    TallyTexts(rd, outs, {});
    assert {} + a == a;
    LinesRender(EntryTexts(outs));
    TallyTexts(rd, errs, a);
    LinesRender(EntryTexts(errs));
  }

  // ---- the files and the record, as the program updates them ----

  /** Which of the system's calls on a file fail; `read` is asked with the offset. */
  datatype Faults = Faults(open: bool, stat: bool, read: int -> bool, truncate: bool) {
    ghost predicate Some() {
      open || stat || truncate || exists pos :: read(pos)
    }
  }

  /** A record write lands whole, or fails having written nothing, or lands and fails to sync. */
  datatype Write = Landed | Lost | Unsynced

  const BLOCK: nat := 65536

  class LogFile {
    var data: string

    constructor (data: string)
      ensures this.data == data
    {
      this.data := data;
    }

    /** The last newline is looked for block by block from the end, and the file cut behind it. */
    method RepairTail(faults: Faults) returns (ok: bool)
      modifies this
      ensures data == if ok then Complete(old(data)) else old(data)
      ensures !ok ==> faults.Some()
    {
      if faults.open || faults.stat {
        return false;
      }
      var end := |data|;
      if end == 0 {
        return true;
      }
      var pos := end;
      while pos > 0
        invariant 0 <= pos <= end && data == old(data)
        invariant forall j | pos <= j < end :: data[j] != '\n'
      {
        var n := BLOCK;
        if pos < n {
          n := pos;
        }
        pos := pos - n;
        if faults.read(pos) {
          return false;
        }
        var buf := data[pos..pos + n];
        var i := LastIndexBefore(buf, '\n', |buf|);
        assert forall j | pos <= j < pos + n :: data[j] == buf[j - pos];
        if i >= 0 {
          var keep := pos + i + 1;
          CompleteUnique(data, keep);
          if keep == end {
            return true;
          }
          ok := Truncate(keep, faults);
          return;
        }
      }
      CompleteUnique(data, 0);
      ok := Truncate(0, faults);
    }

    method Truncate(size: nat, faults: Faults) returns (ok: bool)
      requires size <= |data|
      modifies this
      ensures ok == !faults.truncate
      ensures data == if ok then old(data)[..size] else old(data)
    {
      if faults.truncate {
        return false;
      }
      data := data[..size];
      return true;
    }

    /** The read loop of `scan`; `ls` is what its callback has been given. */
    method ReadLines(faults: Faults) returns (ok: bool, ls: seq<string>)
      ensures ok ==> ls == Lines(data)
      ensures !ok ==> faults.Some()
    {
      ls := [];
      if faults.open {
        return false, ls;
      }
      var rest := data;
      while !Lacks(rest, '\n')
        invariant ls + Lines(rest) == Lines(data)
        decreases |rest|
      {
        if faults.read(|data| - |rest|) {
          return false, ls;
        }
        var i := IndexOf(rest, '\n');
        var piece := rest[..i + 1];
        Regroup(ls, NonBlank(piece), Lines(rest[i + 1..]));
        if Trim(piece) != "" {
          ls := ls + [Trim(piece)];
        } else {
          assert ls + NonBlank(piece) == ls;
        }
        rest := rest[i + 1..];
      }
      if Trim(rest) != "" {
        ls := ls + [Trim(rest)];
      }
      return !faults.read(|data|), ls;
    }

    /** One write and its sync. */
    method Append(text: string, io: Write) returns (ok: bool)
      modifies this
      ensures ok == io.Landed?
      ensures data == old(data) + if io.Lost? then "" else text
    {
      if io.Lost? {
        assert data + "" == data;
        return false;
      }
      data := data + text;
      return io.Landed?;
    }
  }

  class Record {
    const reader: Reader
    const sentF: LogFile
    const outF: LogFile
    const errF: LogFile
    var sent: set<nat>
    var finished: set<nat>
    var okCount: nat
    var failCount: nat

    function Known(): Snapshot
      reads this
    {
      Snapshot(sent, finished, okCount, failCount)
    }

    constructor (reader: Reader, sentF: LogFile, outF: LogFile, errF: LogFile)
      ensures this.reader == reader && this.sentF == sentF && this.outF == outF && this.errF == errF
      ensures Known() == Snapshot({}, {}, 0, 0)
    {
      this.reader, this.sentF, this.outF, this.errF := reader, sentF, outF, errF;
      sent, finished, okCount, failCount := {}, {}, 0, 0;
    }

    /** The callback of the sent file's scan, run over its lines. */
    method CollectMarks(ls: seq<string>)
      modifies this`sent
      ensures sent == ToSet(MarksOf(reader, ls))
    {
      sent := {};
      for k := 0 to |ls|
        invariant sent == ToSet(MarksOf(reader, ls[..k]))
      {
        assert ls[..k + 1][..k] == ls[..k];
        match reader.mark(ls[k]) {
          case None =>
          case Some(n) => sent := sent + {n};
        }
      }
      assert ls[..|ls|] == ls;
    }

    /** The callback of a result file's scan, run over its lines. */
    method CollectResults(ls: seq<string>) returns (count: nat)
      modifies this`finished
      ensures (finished, count) == Tally(reader, ls, old(finished))
    {
      count := 0;
      for k := 0 to |ls|
        invariant (finished, count) == Tally(reader, ls[..k], old(finished))
      {
        assert ls[..k + 1][..k] == ls[..k];
        match ParseEntry(reader, ls[k]) {
          case None =>
          case Some(n) =>
            if n !in finished {
              finished := finished + {n};
              count := count + 1;
            }
        }
      }
      assert ls[..|ls|] == ls;
    }

    /** Repair and scan of one file. */
    static method Load(f: LogFile, faults: Faults) returns (r: Option<seq<string>>)
      modifies f
      ensures r.Some? ==> f.data == Complete(old(f.data)) && r.value == Lines(f.data)
      ensures r.None? ==> faults.Some() && (f.data == old(f.data) || f.data == Complete(old(f.data)))
    {
      var ok := f.RepairTail(faults);
      if !ok {
        return None;
      }
      var ls;
      ok, ls := f.ReadLines(faults);
      return if ok then Some(ls) else None;
    }

    /** openRecord: all three files are repaired and read, or it fails and has repaired some of them at most.
        `reopen` is whether opening one of them for appending fails. */
    static method Open(reader: Reader, sentF: LogFile, outF: LogFile, errF: LogFile,
                       sentIo: Faults, outIo: Faults, errIo: Faults, reopen: bool) returns (r: Option<Record>)
      requires sentF != outF && sentF != errF && outF != errF
      modifies sentF, outF, errF
      ensures r.Some? ==>
        && fresh(r.value) && r.value.reader == reader
        && r.value.sentF == sentF && r.value.outF == outF && r.value.errF == errF
        && sentF.data == Complete(old(sentF.data)) && outF.data == Complete(old(outF.data))
        && errF.data == Complete(old(errF.data))
        && r.value.Known() == Resume(reader, old(sentF.data), old(outF.data), old(errF.data))
      ensures r.None? ==> sentIo.Some() || outIo.Some() || errIo.Some() || reopen
      ensures sentF.data == old(sentF.data) || sentF.data == Complete(old(sentF.data))
      ensures outF.data == old(outF.data) || outF.data == Complete(old(outF.data))
      ensures errF.data == old(errF.data) || errF.data == Complete(old(errF.data))
    {
      var marks := Load(sentF, sentIo);
      if marks.None? {
        return None;
      }
      var outs := Load(outF, outIo);
      if outs.None? {
        return None;
      }
      var errs := Load(errF, errIo);
      if errs.None? || reopen {
        return None;
      }
      var record := new Record(reader, sentF, outF, errF);
      record.CollectMarks(marks.value);
      record.okCount := record.CollectResults(outs.value);
      record.failCount := record.CollectResults(errs.value);
      return Some(record);
    }

    /** The mark is on disk when this returns without an error, and may be when it returns with one. */
    method MarkSent(n: nat, io: Write) returns (ok: bool)
      modifies sentF
      ensures ok == io.Landed?
      ensures sentF.data == old(sentF.data) + if io.Lost? then "" else MarkText(n) + "\n"
    {
      ok := sentF.Append(MarkText(n) + "\n", io);
    }

    method Result(e: Entry, ok: bool, io: Write) returns (done: bool)
      requires outF != errF
      modifies if ok then outF else errF
      ensures done == io.Landed?
      ensures var f := if ok then outF else errF;
              f.data == old(f.data) + if io.Lost? then "" else EntryText(e) + "\n"
    {
      if ok {
        done := outF.Append(EntryText(e) + "\n", io);
      } else {
        done := errF.Append(EntryText(e) + "\n", io);
      }
    }
  }
}
