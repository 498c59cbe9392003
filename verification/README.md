# A model of opod's stateful core

opod serves open-weight language models across machines. This project models the parts of it whose
correctness is a matter of protocol and algorithm rather than plumbing, and proves what they promise.

- **Batch runner** (`Text`, `RecordFile`, `DispatchOrder`, `BatchRun`, `BatchSafety`, `BatchDisk`,
  `BatchFates`, `BatchReturns`, `BatchStops`, `BatchCancel`). A batch is sent by a dispatcher and N workers that append to three files; the process
  may die at any instant and a later run resumes from the files alone. `RecordFile` models the files as
  bytes: rendering, scanning, tail repair and the record object. `BatchRun` is the state machine of any
  number of runs, `BatchSafety` its invariant, and `BatchDisk` the same machine over the bytes, where a
  kill leaves any prefix of the write it cut. The guarantees (at most once, one result per line, the
  counts, the exit status, the bound on interrupted lines) are stated about the bytes. `BatchFates` says which
  file every line ends in and with what, `BatchReturns` that a run comes to its end and when it is an error.
- **Process supervisor** (`Supervisor`, `SupervisorSafety`, `SupervisorStatus`, `SupervisorRestarts`, `Backoff`,
  `LogCapture`). One process record
  with its launcher, one reaper per generation, the restart logic and any number of Stop calls; every
  region under the record's lock is one step and steps interleave freely. `SupervisorRestarts` says when a
  process is relaunched and when it is given up. `LogCapture` is the ring buffer
  and the line writer that fills it.
- **Messages stream translator** (`MessageStream`, `MessageGrammar`, `MessageContents`, `MessageEnds`,
  `MessageReading`, `MessageBlocks`). The writer that
  turns arbitrarily split chat-stream bytes into Messages events: independence of the split, the grammar
  of what comes out, what is conserved, read off the fields of the chunks, and the message the events spell out.
- **Response cache** (`Recency`, `LruCache`, `CacheLaws`, `CacheAnswers`,
  `CacheInclusion`, `CacheOverlap`, `JsonText`, `JsonParse`, `CacheKey`). The map, the list and the
  byte count refine one recency sequence; the laws of that sequence over whole runs, and what a lookup
  answers by the operations alone; and the canonical form and framing behind the key.
- **Typo helper** (`EditDistance`). The table computes the least cost over edit scripts.

`Numbers` and `Sequences` hold what several of these share.

A run of a state machine is a sequence of steps taken from the initial state; the theorems hold for every
such sequence. History variables (the requests that left and what came of them, the answers a failed write lost,
the bytes written so far) are read by no step.

Assumptions of the batch model: the input is the same in every run; a record write lands whole, or fails
having written nothing, or lands and fails to sync, and only a kill tears one; a result object's JSON text
starts with its id, holds no newline and ends with a brace. What the judge of a stop says, what a request
answers and when anything happens are arbitrary.

## Where the code and what is said about it differ

- The two guards that label an aborted request read the contexts one after the other
  (`internal/batch/batch.go:597-612`). If the abort falls between them, a line is written as interrupted
  under a cancel verdict. `BatchStops.WrongCodeExactly` says exactly when, `BatchStops.InterruptedUnderCancel`
  gives a run.
- A cancel is said to write the requests it aborts as cancelled. One that is aborted while its answer is being
  read is written as a transport failure and notes nothing (`internal/batch/batch.go:614-620`), so a cancelled
  run may return as if nothing had been cut short: `BatchStops.AbortUnnoticed`.
- Stop sets the status to stopped (`internal/agent/supervisor.go:489-492`), and a launch path that has not come to
  its end may set another one after it. `SupervisorRestarts.StopHasLastWord` has the exact condition.
- The framing of a key keeps requests apart exactly when no part of them holds a NUL
  (`internal/cache/cache.go:63-68`): `CacheKey.FramedAloneExactly`.
- The back-off's 30 s cap is applied only while doubling (`internal/agent/supervisor.go:659-667`), so a first
  wait longer than 30 s is taken as it is: `Backoff.RestartWait` has the exact condition.
- The line writer looks at the length of the pending line only at the end of a write
  (`internal/agent/supervisor.go:864-871`), so whether a line of 1 MiB or more is cut depends on the chunking:
  `LogCapture.ChunksDoNotMatter` has the exact condition.
- Fragments of a tool call that arrive after a later block has started are dropped by design; the exact
  condition is `MessageContents.LostExactly`.
- The comment on `canonicalize` says that ephemeral fields are not stripped
  (`internal/cache/cache.go:76-81`); the code strips `user` and `stream_options` at every depth, and the model
  follows the code.
- Clearing a namespace also clears the namespaces below it (`internal/cache/memory.go:123-125`):
  `CacheKey.NamespaceCleared`.
- A larger cache always holds the keys a smaller one holds, but it need not answer whatever the smaller one
  does: a smaller cache that evicted an answer and fetched it again keeps it longer. The exact condition is
  `CacheInclusion.HitLostExactly`, a run `CacheInclusion.HitLostPastExpiry`. When requests overlap, most
  overlaps keep the lead (`CacheOverlap.OverlapInclusion`); one in which others pass a request that only the
  larger cache answered can lose it (`CacheOverlap.OverlapBreaksInclusion`).
- `levenshtein` is called a Damerau-Levenshtein distance; it is the restricted form, in which no byte is
  edited twice (`EditDistance.TwoStepsCostLess`).

## Model

| member | source | states |
|---|---|---|
| `Text.CompleteUnique` | internal/batch/record.go:176-215 | What a tail repair keeps is the only newline-terminated prefix that leaves no newline behind it |
| `Text.ParseDigitsItoa` | internal/batch/batch.go:243-253 | Reading back the decimal text of any line number gives that number |
| `Text.TrimSplits` | internal/batch/record.go:162-166 | Trimming takes the spaces off both ends of a line, ASCII and Unicode, all of them and nothing else |
| `RecordFile.LineOfReqId` | internal/batch/batch.go:243-253 | `lineOf(reqID(n)) = n` for every line number |
| `RecordFile.ReqIdInjective` | internal/batch/batch.go:243-253 | Equal result ids come from equal line numbers |
| `RecordFile.LinesRender` | internal/batch/record.go:151-173 | Scanning a file of whole record lines yields exactly those lines, in order |
| `RecordFile.TornAppend` | internal/batch/record.go:102-121 | Whatever strict prefix of a record line a kill leaves at the end of a file of whole lines, the repair gives back exactly the file before that write |
| `RecordFile.RepairIdempotent` | internal/batch/record.go:176-215 | Repairing a repaired file changes nothing |
| `RecordFile.MarkRoundTrip` | internal/batch/record.go:92-100 | A sent mark is one whole line, and every reader of JSON that reads this program's lines gives its line number back |
| `RecordFile.EntryRoundTrip` | internal/batch/record.go:102-121 | A result object is one whole line, and every such reader gives the line number in its id back |
| `RecordFile.OwnReads` | internal/batch/record.go:46-77 | There is such a reader: the one that knows nothing but the program's own spelling |
| `RecordFile.MarksOfTexts` | internal/batch/record.go:46-55 | The marks read from a rendered sent file are the marks written, in order |
| `RecordFile.IdsOfTexts` | internal/batch/record.go:63-74 | The ids read from a rendered result file are the lines answered, in order |
| `RecordFile.TallyTexts` | internal/batch/record.go:56-77 | Scanning a result file of new, distinct lines finds each of them and counts each once |
| `RecordFile.ResumeReadsWholeRecords` | internal/batch/record.go:36-77 | An open learns exactly the whole records of the three files, whatever is torn off behind them: the lines sent, the lines finished and the two counts |
| `RecordFile.LogFile.RepairTail` | internal/batch/record.go:180-215 | The backward walk in 64 KiB blocks cuts the file to its longest newline-terminated prefix, for every length; when a call on the file fails it returns an error and the file is as it was |
| `RecordFile.LogFile.ReadLines` | internal/batch/record.go:152-173 | The read loop yields every non-blank line trimmed of ASCII and Unicode spaces, an unterminated last one included; it fails only when a call on the file fails |
| `RecordFile.LogFile.Append` | internal/batch/record.go:92-121 | A record write lands whole, or fails having written nothing, or lands and fails to sync, and only the first is reported as written |
| `RecordFile.Record.Open` | internal/batch/record.go:36-91 | Opening repairs all three files and fills the record with what a resume may know, no more and no less; or it fails, because a call on a file failed, and has repaired some of the files at most |
| `RecordFile.Record.CollectMarks` | internal/batch/record.go:46-55 | The sent set is the set of the marks the reader finds, whatever other lines it accepts |
| `RecordFile.Record.CollectResults` | internal/batch/record.go:56-77 | Each finished line is added once and counted once, across both result files, whatever other lines the reader accepts |
| `RecordFile.Record.MarkSent` | internal/batch/record.go:92-100 | Appends exactly one mark line to the sent file and touches no other file; an error means the mark is not there or was not synced |
| `RecordFile.Record.Result` | internal/batch/record.go:102-121 | Appends exactly one object line to the output file or the error file and touches no other file; an error means it is not there or was not synced |
| `DispatchOrder.FirstLines` | internal/batch/batch.go:462-470 | The single pass with the map finds, for every line, the first line with the same prefix hash |
| `DispatchOrder.StableSortOrders` | internal/batch/batch.go:471 | A stable sort of the ascending lines by their group's first line orders them by (first line of group, line) and loses none |
| `DispatchOrder.Compute` | internal/batch/batch.go:451-473 | The dispatch order is a permutation of all lines sorted by (first line of group, line), and the identity under FileOrder |
| `DispatchOrder.GroupedUnique` | internal/batch/batch.go:451-473 | There is only one such order |
| `DispatchOrder.GroupsContiguous` | internal/batch/batch.go:451-473 | Lines sharing a prefix are sent with no other line between them, in file order |
| `BatchSafety.StepKeepsInv` | internal/batch/batch.go:256-445 | Every step of dispatcher, workers, stop judge, record and kill keeps the protocol's invariant: requests that left are marked, results are distinct, lines ahead of the dispatcher are untouched, lines behind it are answered, held by a worker or lost to a failed write |
| `BatchDisk.EventRefines` | internal/batch/record.go:36-121 | One event on the bytes of the files, kills in the middle of a write included, is one step on the whole records, and what an open reads from the bytes is exactly those records |
| `BatchDisk.HistoryRefines` | internal/batch/batch.go:256-445 | Every history of any number of runs over the bytes is a history of runs that read their record right, and keeps the invariant |
| `BatchDisk.AtMostOnce` | internal/batch/batch.go:30-43 | Over any number of runs on one directory, each killed at any point with any write cut anywhere, a line's request leaves the process at most once |
| `BatchDisk.LeftIsMarked` | internal/batch/batch.go:579-596 | A request that left has a whole sent mark on disk that survives tail repair and is read by the next open |
| `BatchDisk.OneResultPerLine` | internal/batch/batch.go:296-316 | In every reachable directory each line has at most one whole result across the two result files, and only input lines have one |
| `BatchFates.OutputsAreAnswers` | internal/batch/batch.go:19-22 | Every line in the output file had its request leave the process, exactly once, and come back with a 2xx, and the file holds that very answer |
| `BatchFates.ErrorsAreExplained` | internal/batch/batch.go:564-634 | Every line in the error file is there under the code of what came of it (refused, mark not written, a reply that is not a 2xx, carried as it came, an unreadable reply, a failed request), or as interrupted because a later run found it in flight; no other 2xx is there |
| `BatchFates.DeliveredExactly` | internal/batch/batch.go:385-401 | After a run that finished, a line is in the output file exactly when its request came back with a 2xx and no run had to give it up, and in the error file exactly otherwise |
| `BatchFates.AllWonAllDelivered` | internal/batch/batch.go:385-445 | Runs that were never killed and never failed to write, and whose requests all came back with a 2xx, end with Completed = Total, an empty error file, and one line per input line in the output file, with its answer |
| `BatchFates.NothingAbandoned` | internal/batch/batch.go:296-316 | Without a kill and without a failed write no run finds a line in flight |
| `BatchFates.LeftoversInterrupted` | internal/batch/batch.go:296-316 | A run past its leftovers has each of them in the error file under the code interrupted, and no worker has it |
| `BatchReturns.NeverStuck` | internal/batch/batch.go:256-445 | In every reachable state a run that has not returned has a step it can take by itself |
| `BatchReturns.ReturnsInTime` | internal/batch/batch.go:385-445 | It takes at most 9 * Total + 3 such steps of dispatcher, workers and leftovers, whatever stops and failures come between |
| `BatchReturns.ErrorExactly` | internal/batch/batch.go:388-391 | A run returns an error exactly when one of its own result writes failed; it returns its counts, whether its context ended, and the verdict |
| `BatchDisk.FinishedRunAnswersAll` | internal/batch/batch.go:385-445 | A run that returns no error and is neither cancelled nor resumable leaves exactly one result per line, with Completed + Failed = Total and each count that of its file |
| `BatchDisk.ResumableExactly` | internal/batch/stop.go:103-111 | For a run without an error, exit status 75 holds exactly when its context ended, the verdict was not a cancel and some line has no result on disk |
| `BatchCancel.CancelledExactly` | internal/batch/batch.go:318-329 | A run without an error returns as cancelled exactly when its context ended, the verdict was a cancel, and it was not ready yet, or some line has no result on disk, or it wrote some line as cancelled |
| `BatchCancel.CutOffLeaves` | internal/batch/batch.go:405-425 | When such a run returns, its dispatch was cut off exactly when some line has no result on disk |
| `BatchCancel.NotedIsWritten` | internal/batch/batch.go:429-442 | When such a run returns, it noted a cancelled line exactly when one it wrote is in the error file |
| `BatchDisk.InterruptedBound` | internal/batch/batch.go:306-316 | The lines an opening run would answer as interrupted never exceed the concurrency of a run plus the result writes that failed; while a run is past its leftovers, they never exceed its own workers plus the answers it lost itself |
| `BatchDisk.KillBound` | internal/batch/batch.go:384-427 | One kill, whichever write it cuts and wherever, leaves at most the killed run's workers plus its lost answers to be answered as interrupted |
| `BatchDisk.StopEndsDispatch` | internal/batch/batch.go:405-425 | After the context ended at most one more line is handed to a worker |
| `BatchStops.CodesFitTheVerdict` | internal/batch/batch.go:357-378 | A result written as cancelled was written under a cancel verdict after the abort; one written as interrupted was written after the abort, and under a cancel verdict only for a request whose failure was looked at before the abort |
| `BatchStops.WrongCodeExactly` | internal/batch/batch.go:597-612 | When the second guard is reached the code is interrupted exactly after the abort, and it is so under a cancel verdict exactly for a request whose first guard was read before the abort |
| `BatchStops.InterruptedUnderCancel` | internal/batch/batch.go:597-612 | A reachable run in which a line is written as interrupted under a cancel verdict and nothing is noted as cancelled |
| `BatchStops.AbortUnnoticed` | internal/batch/batch.go:614-620 | A reachable run whose only request is aborted by a cancel while its answer is read: it is written as a transport failure and the run does not return as cancelled |
| `SupervisorSafety.StepKeepsInv` | internal/agent/supervisor.go:311-503 | Every step of launcher, reapers, restart logic, Stop calls and children keeps the record's invariant |
| `SupervisorSafety.StopWins` | internal/agent/supervisor.go:359-372 | From the moment `stopping` is set no generation is ever published again, and a child spawned after it stays unpublished and is killed once the launch path lets go of it |
| `SupervisorSafety.StopLeavesNothing` | internal/agent/supervisor.go:439-503 | Once a Stop call has finished, a child is dead, or was sent SIGKILL, or is still held unpublished by the launch path; and no restart is announced |
| `SupervisorSafety.GuardsNeverFire` | internal/agent/supervisor.go:599-609 | In every reachable state a reaper and superviseExit act on the current generation: the stale-generation guards never fire, and the error a reaper took is the one recorded |
| `SupervisorSafety.PublishAfterReap` | internal/agent/supervisor.go:373-406 | A generation is published only when every earlier one is dead, waited for exactly once and closed |
| `SupervisorSafety.OneLiveGeneration` | internal/agent/supervisor.go:311-434 | At most one published child of a record is alive, and it is the current generation's |
| `SupervisorSafety.WaitedOnce` | internal/agent/supervisor.go:388-406 | No child is waited for twice, and when all waiters are done each has been waited for once |
| `SupervisorSafety.RestartBudget` | internal/agent/supervisor.go:615-687 | With a positive MaxRestarts the counter never exceeds it, and without a stable generation at most MaxRestarts + 1 children are spawned; each stable generation buys at most MaxRestarts more; that it is used up before a record is over is `SupervisorRestarts.OverBecause` |
| `SupervisorSafety.CrashloopStays` | internal/agent/supervisor.go:642-658 | A record in crashloop is never relaunched, and only a Stop changes its status |
| `SupervisorStatus.StatusTells` | internal/agent/supervisor.go:610-698 | While no Stop was called the status is running exactly while a ready generation is watched, and says how a generation exited from its exit through the back-off until the next one is published; an announced restart is on its way; crashloop means the budget is spent |
| `SupervisorStatus.TermBeforeKill` | internal/agent/supervisor.go:475-490 | A Stop sends SIGKILL at the end of its wait only to a child that was sent SIGTERM before |
| `SupervisorRestarts.CountsRelaunches` | internal/agent/supervisor.go:615-619 | Until a Stop, the restart count is the number of relaunches since the last stable generation |
| `SupervisorRestarts.OverBecause` | internal/agent/supervisor.go:639-718 | A record that is over without a Stop has a reason: a launch was given up (a relaunch then says failed), or no restart is wanted, or the whole restart budget is spent and the record says crashloop; so a process that exits is relaunched as long as there is none, and for good without a positive MaxRestarts |
| `SupervisorRestarts.RecordIsCurrent` | internal/agent/supervisor.go:372-386 | A restart that is announced is on its way, Stop or no Stop, unless its launch was given up; a failed exit on record is the current generation's own |
| `SupervisorRestarts.NeverStuck` | internal/agent/supervisor.go:599-718 | A record that is not over can go on by itself, or its generation is ready and its process alive |
| `SupervisorRestarts.NothingUnattended` | internal/agent/supervisor.go:576-592 | A process that is alive and was not sent SIGKILL is held by the launch path, or is the current generation and being probed, cancelled or watched |
| `SupervisorRestarts.GoneIsNotSignalled` | internal/agent/supervisor.go:435-471 | A Stop that is called after the last generation was reaped sends no SIGTERM, and no SIGKILL at the end of a wait, whatever happens after |
| `SupervisorRestarts.StopHasLastWord` | internal/agent/supervisor.go:489-492 | The status Stop sets stays, in every continuation, exactly when the launch path has nothing else to say |
| `Backoff.RestartWait` | internal/agent/supervisor.go:659-667 | The wait before restart k is min(RestartBackoff * 2^k, 30 s) exactly when RestartBackoff is at most 30 s or k is positive |
| `LogCapture.RingBuffer.Append` | internal/agent/supervisor.go:799-807 | The buffer keeps the latest lines at their wrapped positions, in order |
| `LogCapture.RingBuffer.Tail` | internal/agent/supervisor.go:809-828 | `tail(n)` is exactly the latest min(n, capacity, appended) lines ever appended, all that are kept when n is not positive |
| `LogCapture.Latest` | internal/agent/supervisor.go:810-829 | The tail is the end of everything appended, as many lines as were asked for and are there |
| `LogCapture.LineWriter.Write` | internal/agent/supervisor.go:859-877 | One write cuts its bytes at the newlines, joins the first piece to the pending line, and cuts a line that is too long by the end of the write; every line it records goes to the buffer and to standard output, in order |
| `LogCapture.LineWriter.Emit` | internal/agent/supervisor.go:888-893 | The pending bytes become one line, one trailing carriage return dropped, in the buffer and, behind the process id, on standard output |
| `LogCapture.LineWriter.Flush` | internal/agent/supervisor.go:879-886 | A last line without a newline is recorded once; a second flush records nothing |
| `LogCapture.SplitIsLines` | internal/agent/supervisor.go:859-877 | Splitting a stream made of any newline-free lines and any newline-free rest gives back those lines and that rest |
| `LogCapture.ChunksDoNotMatter` | internal/agent/supervisor.go:859-877 | For all chunkings the recorded lines are the newline split of the whole stream exactly when no write ends inside a line of 1 MiB or more; otherwise more lines are recorded than the stream has |
| `LogCapture.CutDependsOnChunks` | internal/agent/supervisor.go:864-871 | Any line of 1 MiB or more is recorded in one piece when its newline comes in the same write, and as two lines when it comes in the next |
| `LogCapture.LinesAsWritten` | internal/agent/supervisor.go:859-877 | With every line under the cut, the recorded lines are the stream's lines however it was chunked |
| `LogCapture.RecordedExactly` | internal/agent/supervisor.go:888-893 | A line is recorded as it is, or it ended in one carriage return more |
| `MessageStream.DrainMore` | internal/api/anthropic.go:562-571 | Feeding bytes after others gives the same events and the same buffer as feeding them all at once |
| `MessageStream.AnthropicWriter.Write` | internal/api/anthropic.go:562-571 | After any sequence of Write calls on a stream the writer is where one call with all the bytes would be; an answer that is no stream is only buffered; the first Write fixes the status if nothing did before |
| `MessageStream.AnthropicWriter.WriteHeader` | internal/api/anthropic.go:550-560 | Only the first status counts, and it makes the answer a stream exactly when it is below 300 and the headers name an event stream |
| `MessageStream.AnthropicWriter.DrainBuffer` | internal/api/anthropic.go:619-634 | The loop translates every complete event of the buffer in order and leaves the rest |
| `MessageStream.AnthropicWriter.TranslateEvent` | internal/api/anthropic.go:619-634 | One event translates its data lines in order and ignores its other lines |
| `MessageStream.AnthropicWriter.TranslateChunk` | internal/api/anthropic.go:643-729 | One chunk does to the writer's fields what the translation step says, branch by branch |
| `MessageStream.AnthropicWriter.WriteChoice` | internal/api/anthropic.go:685-718 | The text and the tool call fragments of a choice are written in order; which pieces those are by the fields is `MessageReading.InOrder` |
| `MessageGrammar.EmitsOneMessage` | internal/api/anthropic.go:643-743 | For every byte stream and every decoder the emitted events are those of one well-formed message so far: start and ping, blocks numbered 0, 1, 2, ... with deltas of their own kind and index, at most one open, then the end or one error |
| `MessageGrammar.EndedStays` | internal/api/anthropic.go:643-646 | Nothing follows message_stop or an error |
| `MessageEnds.Opened` | internal/api/anthropic.go:669-681 | The message is opened by the first chunk that decodes without an error, under that chunk's model or else the request's, with its start and the ping |
| `MessageEnds.Closed` | internal/api/anthropic.go:664-729 | It is closed by the first chunk with an error or a finish reason, with that chunk's error, or its stop reason and usage |
| `MessageEnds.CallsNamed` | internal/api/anthropic.go:698-707 | A tool block is started under the id and the name of its call's first fragment |
| `MessageContents.TextConserved` | internal/api/anthropic.go:685-692 | The text deltas join to exactly the content the stream says up to its end |
| `MessageContents.ArgumentsConserved` | internal/api/anthropic.go:693-718 | A call has a block exactly when the stream mentions it; what its block carries followed by what was dropped is its arguments; by the fields of the chunks this is `MessageReading.CallDelivered` |
| `MessageContents.KeptAndLost` | internal/api/anthropic.go:698-713 | Of a call's fragments those before another block starts are kept, those after it are dropped, and together they are all of them |
| `MessageContents.LostExactly` | internal/api/anthropic.go:698-713 | Something of a call is dropped exactly when a piece that starts a block came after one of its fragments and a non-empty fragment of it came after that |
| `MessageContents.ArgumentsWhole` | internal/api/anthropic.go:693-718 | A call's input_json deltas join to its arguments exactly when none of its fragments is late in that sense |
| `MessageContents.ContiguousLosesNothing` | internal/api/anthropic.go:693-718 | Fragments that arrive contiguously are never late |
| `MessageContents.InterleavedLoses` | internal/api/anthropic.go:698-713 | Two interleaved calls, the events they are translated to, and the last fragment of the first, which is in none of them |
| `MessageReading.EventsRead` | internal/api/anthropic.go:618-634 | From events on the wire, of any number of lines, exactly the data lines are read, in order; an incomplete event is not |
| `MessageReading.InOrder` | internal/api/anthropic.go:684-718 | A choice is read as its content, if it is not empty, and then its tool calls in order, each under its own index or else its place |
| `MessageReading.ContentsDelivered` | internal/api/anthropic.go:685-692 | The text deltas join to the content fields of the first choices up to the end of the answer |
| `MessageReading.CallDelivered` | internal/api/anthropic.go:693-718 | A call has a block exactly when some first choice has a tool call of that index, or at that place when it has none; the block starts with the id and name of the first of them, its deltas join to the arguments of the first so many, and the arguments of the others are what is lost |
| `MessageBlocks.EmitsTheMessage` | internal/api/anthropic.go:643-743 | The events are exactly those of one message: its start, its blocks one after the other with their deltas and stops, and its end; an error cuts the open block short |
| `MessageBlocks.BlocksApart` | internal/api/anthropic.go:685-707 | In that message no text block follows another and no call has two blocks |
| `MessageStream.StopReason` | internal/api/anthropic.go:438-447 | max_tokens exactly for length, tool_use exactly for tool_calls and function_call, end_turn for everything else |
| `LruCache.Memory.constructor` | internal/cache/memory.go:41-57 | A new cache is empty, with 1000 entries and 24 hours where the arguments are not positive |
| `LruCache.Memory.Get` | internal/cache/memory.go:59-79 | A lookup on map, list and byte count is a lookup on the recency sequence: a lapsed entry leaves, a live one moves to the front, and hits and misses are counted; a hit returns the value of an unexpired entry of that key |
| `LruCache.Memory.Set` | internal/cache/memory.go:81-110 | A store is a store on the recency sequence, within capacity, and evicts one entry exactly when the key is new and the cache full |
| `LruCache.Memory.Evict` | internal/cache/memory.go:101-109 | The eviction loop keeps the front of the sequence that fits and counts what left |
| `LruCache.Memory.Delete` | internal/cache/memory.go:112-118 | Exactly the entry of the key leaves, if there is one |
| `LruCache.Memory.DeleteNamespace` | internal/cache/memory.go:120-129 | Exactly the entries whose key starts with the namespace and a slash leave, whatever order the map is walked in |
| `LruCache.Memory.DeleteAll` | internal/cache/memory.go:131-137 | Map, list and byte count become empty together |
| `LruCache.Memory.Sweep` | internal/cache/memory.go:180-192 | Exactly the entries past their expiry leave, and each is counted |
| `LruCache.Memory.RemoveLocked` | internal/cache/memory.go:158-165 | One entry leaves map, list and byte count together |
| `LruCache.MirrorSize` | internal/cache/memory.go:102 | The map has as many entries as the list, so the loop's test is on the list's length |
| `Recency.WithoutOne` | internal/cache/memory.go:158-165 | Removing one entry from the sequence is removing its key |
| `CacheLaws.RunByTouch` | internal/cache/memory.go:12-14 | After any run of operations the sequence lists keys by their last touch, each once, within capacity |
| `CacheLaws.VictimIsOldest` | internal/cache/memory.go:97-109 | One store evicts at most one entry: the one whose last touch is oldest, and never the new one |
| `CacheLaws.StepRemoves` | internal/cache/memory.go:112-192 | A deletion, a sweep or a lookup that finds its entry expired takes out exactly the entries it says, and leaves the rest as it is |
| `CacheAnswers.HitIsLastStore` | internal/cache/memory.go:59-110 | After any run of operations, a lookup that hits returns the value of the last store of its key, within the time that store gave it, and nothing has taken the key out since |
| `CacheAnswers.StoredIsHit` | internal/cache/memory.go:59-110 | A key that was stored, not taken out since and not expired hits, with that value, as long as fewer other keys were touched since than the cache has room for |
| `CacheAnswers.HitExactly` | internal/cache/memory.go:59-110 | While nothing else is taken out, a lookup hits exactly under these conditions |
| `CacheInclusion.Inclusion` | internal/api/embeddings.go:70-82 | For look-up-then-fill accesses one after the other, whatever their times and the times to live, the keys of a smaller cache are the first keys of a larger one |
| `CacheInclusion.HitLostExactly` | internal/cache/memory.go:59-79 | A request hits the smaller cache and misses the larger one exactly when the smaller one holds its key and the larger one's entry at the same place has expired while the smaller one's has not |
| `CacheInclusion.HitsWithinLife` | internal/api/embeddings.go:70-82 | Within the time to live every hit of the smaller cache is a hit of the larger one |
| `CacheInclusion.ServeFronts` | internal/api/embeddings.go:70-82 | Whether it hits, misses or finds its entry lapsed, an access brings its key to the front and moves nothing else |
| `CacheInclusion.HitLostPastExpiry` | internal/cache/memory.go:68-72 | A trace past the time to live in which the smaller cache hits and the larger one misses |
| `CacheOverlap.InTurnIsServed` | internal/api/embeddings.go:70-82 | Lookups and fills as separate events, each fill directly behind its lookup, are the accesses inclusion is proved for |
| `CacheOverlap.OverlapInclusion` | internal/api/embeddings.go:70-82 | With lookups and fills of different requests interleaved and nothing expired, the keys of the smaller cache stay the first keys of the larger as long as nothing comes between a lookup that only the larger one answers and its fill |
| `CacheOverlap.OverlapHits` | internal/api/embeddings.go:70-82 | Under that condition every hit of the smaller cache is a hit of the larger one |
| `CacheOverlap.FillInStep` | internal/api/embeddings.go:190-196 | Every fill, of a new key or of one that is there already, keeps the smaller cache in the lead |
| `CacheOverlap.AskInStep` | internal/api/embeddings.go:70-82 | So does every lookup that the larger cache does not answer alone |
| `CacheOverlap.AskFillInStep` | internal/api/embeddings.go:190-196 | So does one that it answers alone, when the smaller cache is filled at once |
| `CacheOverlap.InTurnHarmless` | internal/api/embeddings.go:70-82 | Requests that do not overlap meet that condition, whatever the caches answer |
| `CacheOverlap.OverlapBreaksInclusion` | internal/api/embeddings.go:190-196 | With nothing expired, a fill that others overtake leaves the smaller cache with a key the larger one has evicted |
| `EditDistance.DistanceIsLeast` | cmd/opod/main.go:131-133 | No script of insertions, deletions, substitutions and adjacent swaps that turns one string into the other costs less than the distance |
| `EditDistance.DistanceIsReached` | cmd/opod/main.go:131-133 | Some script that turns one string into the other costs exactly the distance |
| `EditDistance.Undone` | cmd/opod/main.go:131-133 | Every script can be undone at the same cost |
| `EditDistance.DistanceSymmetric` | cmd/opod/main.go:134-175 | The distance is symmetric |
| `EditDistance.ZeroOnlyOnEqual` | cmd/opod/main.go:134-137 | The distance is zero exactly on equal strings |
| `EditDistance.TwoStepsCostLess` | cmd/opod/main.go:131-133 | No byte is edited twice: "ca" is 1 from "ac", that is 1 from "abc", and "ca" is 3 from "abc" |
| `EditDistance.Levenshtein` | cmd/opod/main.go:134-175 | The program returns the distance of the two whole strings, early returns included |
| `EditDistance.FillTable` | cmd/opod/main.go:145-174 | The table filled row by row ends with the distance of the whole strings in its last cell |
| `EditDistance.FillRow` | cmd/opod/main.go:154-173 | A row is filled with the distances of its prefixes and the rows above it are kept |
| `EditDistance.CellFrom` | cmd/opod/main.go:155-172 | The four-way minimum of the neighbours is the distance of the two prefixes |
| `EditDistance.Suggest` | cmd/opod/main.go:102-115 | The suggestion is the first candidate the input is a prefix of, else the first closest candidate within two edits, else none |
| `JsonText.EscapedUnique` | internal/cache/cache.go:82-93 | An escaped string followed by its quote gives back the string and what follows |
| `JsonText.SortedUnique` | internal/cache/cache.go:117-139 | There is one ascending order of an object's keys, however the map was walked |
| `JsonText.SortedAscends` | internal/cache/cache.go:117-139 | The order the keys are printed in is ascending |
| `JsonText.PutUnique` | internal/cache/cache.go:82-93 | Equal texts, each ended by a delimiter, are the texts of equal values: the encoding is injective and prefix-unique |
| `JsonParse.StringRead` | internal/cache/cache.go:82-93 | Reading an escaped string gives the string and leaves what follows its quote |
| `JsonParse.ValueRead` | internal/cache/cache.go:82-93 | Reading the encoder's text of a value gives the value and leaves what follows, inside any larger text |
| `JsonParse.ParseEncoded` | internal/cache/cache.go:82-93 | A strict reader of compact JSON inverts the encoder on every value it can print |
| `JsonParse.ValueSound` | internal/cache/cache.go:82-93 | What the strict reader yields has printed numbers only and nests no deeper than allowed |
| `JsonText.PutLacks` | internal/cache/cache.go:82-93 | The encoder prints no control character, wherever the value stands |
| `CacheKey.StripEphemeral` | internal/cache/cache.go:95-115 | The loops over object keys and array elements compute the stripped value |
| `CacheKey.StripLeavesBare` | internal/cache/cache.go:95-115 | A stripped value has no ephemeral field at any depth, and a value is left as it is exactly when it had none |
| `CacheKey.StripReads` | internal/cache/cache.go:95-115 | Stripping cuts exactly the ways into a value that lead through `user` or `stream_options`; whatever stands at the end of any other way stays |
| `CacheKey.StripIdempotent` | internal/cache/cache.go:95-115 | Stripping twice is stripping once |
| `CacheKey.CanonicalComplete` | internal/cache/cache.go:82-93 | Two bodies that parse have the same canonical bytes exactly when their values agree after dropping `user` and `stream_options` at every depth |
| `CacheKey.UnparsedStandsAlone` | internal/cache/cache.go:84-86 | A body that does not parse shares its canonical bytes with no other body |
| `CacheKey.DecodesCanonical` | internal/cache/cache.go:82-93 | The canonical bytes of a body that parses decode to its stripped value |
| `CacheKey.CanonicalIdempotent` | internal/cache/cache.go:82-93 | Canonicalising canonical bytes changes nothing |
| `CacheKey.CodecExists` | internal/cache/cache.go:82-93 | What is asked of decoder and encoder can be met: the strict reader is the decoder of such a codec |
| `CacheKey.FramingInjective` | internal/cache/cache.go:61-68 | Namespace, path and body can be read back from the bytes fed to the hash when namespace and path hold no NUL |
| `CacheKey.FramingWithNul` | internal/cache/cache.go:61-68 | With a NUL in the namespace two different requests are framed alike |
| `CacheKey.FramedAloneExactly` | internal/cache/cache.go:61-68 | A request is framed like no other exactly when neither its namespace nor its path nor its canonical body holds a NUL |
| `CacheKey.ParsedFramedAlone` | internal/cache/cache.go:61-68 | For a body that parses this is up to namespace and path, since the encoder prints no NUL |
| `CacheKey.SameBytesSameRequest` | internal/cache/cache.go:61-74 | The hash is fed the same bytes exactly when namespace, path and stripped body agree; for the key itself this is `CacheKey.SameKeySameRequest` |
| `CacheKey.SameKeySameRequest` | internal/cache/cache.go:61-74 | Two requests, of any bodies, have the same key exactly when namespace, path and stripped body agree (for bodies that do not parse: the bodies themselves), for every hash that tells their two texts apart and prints no slash |
| `CacheKey.NamespaceCleared` | internal/cache/memory.go:120-129 | Clearing a namespace removes a request's entry exactly when the entry is in that namespace or in one that has it as a leading path segment |

## Left out

- Parsing an input line, and which lines are refused: a refusal is an event, and its fate is recorded.
- The JSON text of a result object beyond its id: the code is carried beside the text, which is arbitrary.
- HTTP clients, TLS, uploads, presigned inputs and staging of the input: a request is an event with an arbitrary answer.
- `CancelRequested` and the signal plumbing: the judge of a stop is an arbitrary answer given at most once.
- A readiness wait that fails without a stop: on disk it is a run that ends where it stands, which is a kill between writes.
- Short writes that return an error in the middle of a record line while the run goes on: excluded by the assumption on record writes.
- `leadingPrefix`: its hash is a value per line; collisions put lines in one group, as in the code.
- RecordFile.LineOfReqId: does not model the 64-bit range of line numbers; neither does what is asked of the reader of the record's lines.
- Decoding a record line's JSON: a parameter, asked to read the marks and results this program writes; of other texts nothing is asked, except that a mark with a negative line, which names no line of the input, is not read.
- The supervisor's map from ids to records: all properties are per record, since a start may replace a record that is waiting out its back-off.
- Process groups, parent-death signals, readiness probes and clock time: exit, readiness, a kill and a stable uptime are arbitrary steps.
- Backoff.RestartWait: does not model the 64-bit range of a duration.
- How the standard output of the supervisor interleaves what different writers show: each writer has its own echo.
- `Finish`, which translates a buffered answer of the Messages writer, and `chatTurns`: branch-by-branch building of values.
- Decoding a chunk's JSON, and the random ids drawn for messages and unnamed tool calls: a parameter and a marker.
- The sweeper's ticker, `Stats` and the locks of the cache: each method is one atomic operation; time is an argument.
- An entry whose expiry is the zero time: the program never stores one.
- CacheAnswers.StoredIsHit: its condition is enough but not necessary when other keys are deleted or expire in between, which makes room; without that it is exact (`CacheAnswers.HitExactly`).
- CacheOverlap.OverlapInclusion: its condition is enough but not necessary: a lookup that only the larger cache answers may be passed by others and no harm done, when few enough keys come between.
- LruCache.Memory.Get: returns the value itself, not a copy of its bytes; values are immutable here.
- Decoding a request body: a parameter. It is asked to yield values whose numbers the encoder prints and that nest at most 10,000 deep (the limit of encoding/json), and, for idempotence, to read the compact texts that `JsonParse` reads as it does; of other texts nothing is asked. A number is its shortest text.
- `sortObject`'s intermediate map of encoded members: only the text it ends in is modelled.
- SHA-256: an arbitrary function of the framed bytes, whose text holds no slash.
- The SQLite cache driver, the handlers, the router, the scheduler, the command line and everything else in the repository.
