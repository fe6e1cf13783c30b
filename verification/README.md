# A verified model of HyperQueue's server core

HyperQueue runs large numbers of tasks on a cluster. A central server keeps jobs and their tasks, a
backend (tako) schedules them on workers, workers stream the output of tasks into one log file per
job, and a client submits jobs, waits for them and reads the logs. This project models the parts of
the system where several functions have to agree with each other and proves that they do, for every
input, every run and every interleaving:

* **Stream log** (`Bytes`, `LogFormat`, `LogIndex`, `LogSpec`, `LogSummary`, `LogReader`, `LogWriter`):
  the byte format, the buffered writer with failing writes, the index of the reader, and the commands
  `cat`, `show` and `summary`.
* **Stream server** (`StreamServer`, `StreamFeed`, `StreamSafety`, `StreamDrain`): any number of worker connections
  feeding one bounded channel that one writer drains, as a state machine over all interleavings.
* **Server and backend** (`JobModel`, `JobObject`, `JobStatus`, `ServerModel`, `ServerSteps`,
  `ServerObject`, `Backend`, `Pairing`, `Mirror`, `ServerRun`, `ServerSafety`, `ServerTheorems`, `Rpc`): jobs, task
  states, counters, the sparse task index, and the server running against an asynchronous backend with
  queued messages, delayed answers and lost workers.
* **Arrays and requests** (`IntArray`, `NumberParser`, `ArrayParser`, `CpuRequest`, `ClientRequests`,
  `RunRequests`): ranges of task ids, their text, their compression, and resubmission.
* **Automatic allocation** (`AutoAlloc`) and the **wait command** (`WaitLoop`, `RunRequests`).

`dafny verify dfyconfig.toml` checks everything.

## How to read the model

Code that updates fields or runs a loop is a class or a method, proved against a function on values;
what the system promises is then proved about those functions. Concurrency is a state machine: an
`Action` type, `Enabled`, `Next`, and `Exec` over a sequence of actions. A panic, failed `assert!` or
failed `unwrap` of the source is an explicit result (`Panic`, `Crash`, `SubmitCrash`, `Panicked`), so
that "does not panic" is a theorem about runs and not a precondition. Values a Rust owner holds without
sharing (a task's instance list inside the index, a task's state inside a job) are Dafny values.
`u32` arithmetic of id ranges wraps around as in a release build; backend ids, job ids, file positions
and byte totals are unbounded.

What the theorems about runs assume about the world outside:

* A worker sends `Start`, then data on channel 0 or 1, then `End` for each execution, all on one
  connection; no execution is started twice; data fits the 32-bit length field. Nothing is assumed
  about when connections break, when the buffer is flushed or when writes fail.
* The backend moves a task along waiting, running, and finished, failed or canceled; it reports every
  change once, through one FIFO queue; a lost worker's message names the tasks that ran on it; a cancel
  request is answered with the tasks it ended, or by an error. It accepts the tasks of a submission.
  Requests are answered in order; answers carry no id, and a woken task may run arbitrarily later.
* Submitted arrays have at least one id, and not more ids than `id_count` says (`Fitting`); a submission
  keeps the server's invariant only then (`SubmitKeeps`). An accepted text denotes such an array if it
  does not name the largest 32-bit id and its spans stay below 2^32 (`AcceptedIsSound`).
* What is in the writer's buffer when the writer stops is lost: the file on disk is the flushed part.

Where the code does not do what one would expect, the model follows the code and the exact condition
is proved:

* `receive_loop` books a message in the set of open ids before it sends it on, and the other arm of the
  `select!` may drop it in between. If it drops a `Start`, the log does not open at all; if it drops an
  `End`, that stream is never closed, and the tail of the log may stay in the writer's buffer, which can
  make the file unreadable too. The file opens with every stream closed in it if and only if neither
  happened, and the exact condition for it to open at all is proved as well (`RunLeavesReadableLog`,
  with the runs `LostStartHappens` and `LostEndHappens`).
* `Display` of an array separates ranges by a comma and a space, which the parser does not accept: the
  text is accepted again if and only if there is a single range (`DisplayRoundTrip`).
* The largest 32-bit id cannot be represented: compression keeps the ids if and only if it is not among
  them (`CompressKeepsIds`), and a text that names it denotes an empty range (`MakeRangeIsSound`).
* An accepted array of interleaved ranges can have more tasks than backend ids are reserved for it
  (`WideArray`).
* An empty submission, as an empty `--each-line` file makes (src/client/commands/submit.rs:167-169), lets the
  next one trip an assertion (`EmptySubmissionCollides`, `EmptyFileCollides`).
* A one-element array forgets its task id, and an entry list that is too short leaves tasks without a
  definition (`DefsMatchJob`). A resubmission pairs tasks with their own lines if and only if they are the
  first ones (`ResubmittedEntries`, `LinesGetMixedUp`), and a single task always loses its line
  (`SingleLosesEntry`).
* A failed status query makes the automatic allocator forget an allocation for good. After every tick the
  queue holds the target plus all workers ever forgotten minus those rejected in that tick; so after a tick
  without rejections it is within the target if and only if no query has ever failed
  (`QueueOverallocation`, `OverallocationHappens`). The scheduling loop ends if and only if nothing is
  missing or the queue takes at least one worker at a time (`LoopEnds`).
* `show` ends every chunk with a newline, so it prints the bytes of `cat` if and only if every chunk
  does (`ShowAgreesWithCat`).

## Model

| member | source | states |
|---|---|---|
| Bytes.GetPutU32 | src/stream/server/rpc.rs:113-136 | reading a big-endian 32-bit word that was written gives the word back |
| Bytes.PutGetU32 | src/stream/reader/logfile.rs:130 | writing a word that was read gives the four bytes back |
| Bytes.BytesAreOrdered | src/stream/server/rpc.rs:113-136 | a smaller word has, compared byte by byte from the first, the smaller bytes: the most significant byte comes first |
| LogFormat.BlockRoundTrip | src/stream/reader/logfile.rs:243-280 | the bytes of one written block, anywhere in a file, are read as that block, and the cursor ends right behind it |
| LogFormat.ScanBlocks | src/stream/server/rpc.rs:119-164 | a file holding the blocks of any messages scans to exactly those messages and then goes on with whatever follows |
| LogFormat.LogRoundTrip | src/stream/server/rpc.rs:109-167 | scanning the header and blocks the writer produces gives back all messages in order and nothing else |
| LogFormat.LiteralLog | src/stream/server/rpc.rs:109-157 | a log with one Start, one chunk and one End, byte by byte |
| LogFormat.BlockPrintsBack | src/stream/reader/logfile.rs:243-280 | a block that was read re-encodes to the very bytes it was read from |
| LogFormat.ScanPrintsBack | src/stream/reader/logfile.rs:372-428 | every scannable file without a truncated chunk is the encoding of the messages found in it: the format has no second spelling |
| LogIndex.Find | src/stream/reader/logfile.rs:43-53 | the lookup of an instance finds one exactly if it is there |
| LogIndex.InstanceIsAdded | src/stream/reader/logfile.rs:55-73 | an id already there is refused; otherwise exactly one open instance without chunks joins the others, which stay as they are, and the ids stay strictly increasing for any order of starts |
| LogIndex.AcceptsPrefix | src/stream/reader/logfile.rs:372-428 | what the index accepts is prefix-closed: a log can be read at every block boundary |
| LogIndex.AcceptsMeans | src/stream/reader/logfile.rs:378-422 | what the index accepts, place by place: no execution starts twice, data is on channel 0 or 1, and data and End come after the Start |
| LogIndex.StartKeepsDescribes | src/stream/reader/logfile.rs:378-387 | a Start block is refused exactly for a known instance and otherwise keeps the index the exact description of the messages so far |
| LogIndex.UpdateKeepsDescribes | src/stream/reader/logfile.rs:388-423 | a chunk or End block changes exactly the instance it names and keeps the index exact |
| LogIndex.KnownIffStarted | src/stream/reader/logfile.rs:397-422 | the index knows an instance if and only if its Start was read |
| LogIndex.LastInstanceIsLatest | src/stream/reader/logfile.rs:36-38 | the last instance of a task is the one with the greatest id, with exactly its chunks and its closed flag |
| LogIndex.DescribesIsExact | src/stream/reader/logfile.rs:372-428 | the messages of a log determine its index completely |
| LogSpec.BodiesAreData | src/stream/reader/logfile.rs:195-205 | the chunk bodies reached through the index concatenate to the data the instance sent, in arrival order |
| LogSpec.CatAppend | src/stream/reader/logfile.rs:182-241 | `cat` prints the tasks asked for in that order, as often as they are named, each with the data of its newest execution |
| LogSpec.AcceptedIsCovered | src/stream/reader/logfile.rs:325-353 | in an accepted log every block belongs to a known task, so the unwraps of `show` cannot fail |
| LogSpec.ShowText | src/stream/reader/logfile.rs:316-368 | per task and channel the sequential scanner prints exactly the chunks of the newest execution in order, each followed by a newline exactly if it does not end with one |
| LogSpec.CompletedLine | src/stream/reader/logfile.rs:330-334 | a shown chunk is the chunk, with one newline behind it exactly if it does not end with one |
| LogSpec.ShowsOnlyChunks | src/stream/reader/logfile.rs:325-349 | whatever is shown comes from a chunk of the newest execution on a selected channel, completed to a line |
| LogSpec.ShowCloses | src/stream/reader/logfile.rs:350-366 | a task is announced as closed if and only if its newest execution ends and something of it was shown before, or empty streams are to be shown |
| LogSpec.ShowAgreesWithCat | src/stream/reader/logfile.rs:182-370 | for every task and channel the text of `show` is the chunks of the newest execution completed to lines; it is longer than `cat` by the number of chunks that do not end a line, and equal to it if and only if there are none |
| LogSpec.ReadableLog | src/stream/reader/logfile.rs:112-122 | the log of any messages opens if and only if the messages are well-formed, and then holds exactly them |
| LogSpec.HeaderMeans | src/stream/reader/logfile.rs:124-137 | a header is accepted if and only if 26 bytes are there and the first ten are the magic and version 0 |
| LogSpec.CutIsTorn | src/stream/server/rpc.rs:119-164 | cutting a log anywhere after its header leaves whole blocks and a proper part of one more |
| LogSpec.TornLogIsReadable | src/stream/reader/logfile.rs:372-428 | a log cut at any byte opens if and only if the cut is a block boundary or inside the data of a chunk; what it then holds is stated exactly |
| LogSpec.CutIsReadable | src/stream/reader/logfile.rs:243-428 | the first bytes of any log open if and only if the cut is not inside the fixed part of a block and the blocks left are acceptable; what is read is these blocks, the last chunk clipped at the cut |
| LogSpec.ClosedPartIsAll | src/stream/server/rpc.rs:154-166 | what the writer is certain to flush is the whole log if and only if nothing follows the last End |
| LogSummary.BytesAreConserved | src/stream/reader/logfile.rs:152-168 | current plus superseded size of a channel is every byte ever announced on it |
| LogSummary.StreamsAreConserved | src/stream/reader/logfile.rs:146-150 | the streams counted are the Start blocks, at least one per task |
| LogSummary.CurrentSizeIsCatSize | src/stream/reader/logfile.rs:157-160 | the current size is the number of bytes `cat` prints |
| LogSummary.OpenTasks | src/stream/reader/logfile.rs:140-144 | the open streams counted are the tasks whose newest execution has no End |
| LogReader.CheckHeader | src/stream/reader/logfile.rs:124-137 | accepts exactly files with the magic, version 0 and both reserved words, leaving the cursor behind the 26 bytes |
| LogReader.ReadBlock | src/stream/reader/logfile.rs:243-280 | returns the block at the cursor, a clean end only on the tag byte, an error on a cut block or unknown tag |
| LogReader.IndexBlock | src/stream/reader/logfile.rs:377-425 | one block is refused exactly if it may not follow the earlier ones, and otherwise the index stays exact |
| LogReader.MakeIndex | src/stream/reader/logfile.rs:372-428 | succeeds if and only if the file scans and its messages are well-formed; the index then describes them exactly |
| LogReader.LogFile.Open | src/stream/reader/logfile.rs:112-122 | opens exactly the readable files |
| LogReader.LogFile.PrintChunks | src/stream/reader/logfile.rs:193-207 | relative seeks with a tracked position print exactly the chunk bodies; the tracked position is the cursor; fails exactly at a truncated chunk |
| LogReader.LogFile.Cat | src/stream/reader/logfile.rs:182-241 | prints, for the selected tasks or all tasks ascending, the data of each newest execution; prints nothing for unknown or (unless allowed) unfinished tasks; breaks off only at truncated data |
| LogReader.LogFile.Show | src/stream/reader/logfile.rs:282-370 | prints exactly the blocks of the newest executions in file order, chunks completed to lines, with closing lines for tasks with content, and breaks off only at truncated data it has to print |
| LogReader.LogFile.Summarize | src/stream/reader/logfile.rs:139-180 | all eight figures, in terms of the messages of the log; superseded streams are starts minus tasks and do not underflow |
| LogReader.Sizes | src/stream/reader/logfile.rs:152-168 | the loops add up current and superseded sizes of both channels |
| LogReader.SupersededOf | src/stream/reader/logfile.rs:162-167 | the inner loop adds up the older executions of a task |
| LogWriter.PutBlock | src/stream/server/rpc.rs:120-149 | the reused buffer holds exactly the block of the message, up to the data that is written separately |
| LogWriter.WriteMessage | src/stream/server/rpc.rs:121-164 | success means the whole block is in the file, and flushed if it closes a stream; failure leaves at most a part of it |
| LogWriter.StreamTask | src/stream/server/rpc.rs:75-107 | for any queue of messages and any failure: a prefix is written and its closed streams acknowledged after a flush, each later message with a sender is answered by one error to that sender, in order, and the file is a log plus at most a torn block; without failure the header is flushed |
| LogWriter.ErrorState | src/stream/server/rpc.rs:99-107 | the n-th error goes to the sender of the n-th message that has one; there are no others |
| LogWriter.ErrorsAnswerInOrder | src/stream/server/rpc.rs:89-107 | the same of the errors on values: one for each message with a sender, in order, to that sender |
| LogWriter.ClosedIsFlushed | src/stream/server/rpc.rs:154-157 | everything up to the last written End has left the buffer |
| LogWriter.CatWritten | src/stream/reader/logfile.rs:112-241 | opening what a writer that has not failed leaves on disk, the log up to some byte not before the last End: it opens if and only if that byte is not in the fixed part of a block, and `cat` then works on the messages up to there; if the last message is an End nothing is missing and each channel prints the data of every newest execution, tasks ascending |
| LogWriter.WriteThenCat | src/stream/server/rpc.rs:109-167 | end to end: any well-formed messages are written, and unless a write fails every End is acknowledged and the file is opened and printed as above |
| StreamServer.DataOfInst | src/stream/reader/logfile.rs:193-207 | the data of an execution depends on its own messages only |
| StreamServer.AcceptsByStream | src/stream/reader/logfile.rs:372-428 | an interleaving of executions is well-formed as soon as each execution is |
| StreamFeed.OpenSnoc | src/stream/server/rpc.rs:194-203 | the booked ids are exactly the executions started and not ended on the connection |
| StreamFeed.InstShape | src/worker/start.rs:290-316 | an execution has one Start, first, and at most one End, last |
| StreamFeed.EnqueueKeepsFeed | src/stream/server/rpc.rs:205-214 | sending a booked message keeps channel and connections in agreement, execution by execution |
| StreamFeed.EmergencyKeepsFeed | src/stream/server/rpc.rs:244-258 | so does every emergency End |
| StreamFeed.FeedStep | src/stream/server/rpc.rs:184-261 | every action keeps: the channel has carried exactly what the owning connection delivered of each execution, in order, plus its emergency End |
| StreamSafety.Step | src/stream/server/rpc.rs:109-261 | every action, including failed writes and closing connections, keeps the invariant of channel, file and answers |
| StreamSafety.RunInv | src/stream/server/rpc.rs:109-261 | the invariant holds after every run |
| StreamSafety.ClosedIsComplete | src/stream/server/rpc.rs:184-217 | at a worker's End, all the connection ever read of the execution has gone through the channel in order, and nothing follows |
| StreamSafety.AcksAnswerInOrder | src/stream/server/rpc.rs:158-162 | the n-th acknowledgement is for the n-th written End of a worker, names its task and goes to its connection; none is left out |
| StreamSafety.AckedIsFlushed | src/stream/server/rpc.rs:146-163 | at an acknowledged End the whole execution lies in the flushed part of the file in sending order |
| StreamSafety.RunAcknowledges | docs/streaming.md:73 | over every run and interleaving: the n-th EndResponse answers the n-th acknowledged End, and everything its connection ever read of that execution is, in order, in the flushed part of the file, with nothing of it later |
| StreamSafety.RunRejects | src/stream/server/rpc.rs:89-107 | over every run the answers after the acknowledgements are errors, the n-th to the connection of the n-th message taken from the channel and not written; none without a failed write |
| StreamSafety.RunIsBounded | src/stream/server/rpc.rs:32 | over every run the channel never holds more than 32 messages |
| StreamSafety.AckedIsRead | docs/streaming.md:73 | any readable copy of the file from then on, even cut in the middle of a later block, shows all data of the execution and the closed stream |
| StreamDrain.PrefixIsReadable | src/stream/reader/logfile.rs:372-428 | in every state every prefix of what went through the channel is a log that opens if and only if it holds no End of an execution whose Start was lost |
| StreamDrain.CopyIsReadable | src/stream/reader/logfile.rs:372-428 | in every state the file cut at any byte opens if and only if the cut is not in the fixed part of a block and no such End is before it; what is then read is stated |
| StreamDrain.RunCopies | src/stream/server/rpc.rs:109-261 | the same for any copy of the file taken at any moment of any run, also after a failed write |
| StreamDrain.EndedSendsEnds | src/stream/server/rpc.rs:244-258 | once a connection has ended, by any route and whatever the others do, the channel has carried exactly one End of each execution it started, unless its own End was booked and dropped |
| StreamDrain.EndedIsClosed | src/stream/server/rpc.rs:244-258 | once its messages are through, exactly one End of each execution it started is in the file, with everything up to it flushed |
| StreamDrain.RunEnds | src/stream/server/rpc.rs:219-261 | the same over every run |
| StreamDrain.NoLostEndCloses | src/stream/server/rpc.rs:154-166 | when all connections are gone and no End was lost, the last message of all is an End, so nothing stays in the buffer |
| StreamDrain.DrainedReadable | src/stream/server/rpc.rs:119-167 | the file left on disk opens if and only if no Start was lost and the flushed part does not end in the fixed part of a block; it is the whole log unless an End was lost |
| StreamDrain.RunLoss | src/stream/server/rpc.rs:234-242 | a Start or End is lost in a run if and only if a connection is closed between booking and sending one |
| StreamDrain.RunLeavesReadableLog | src/stream/server/rpc.rs:219-261 | over whole runs: both statements in terms of such closes; the file opens with every execution closed in it if and only if no Start and no End was dropped by a close |
| StreamDrain.LostStartHappens | src/stream/server/rpc.rs:234-258 | a run that drops a Start and leaves a file that does not open |
| StreamDrain.LostEndHappens | src/stream/server/rpc.rs:165-166 | a run that drops only an End and leaves a file that does not open, because the tail was never flushed |
| IntArray.RangeDenotes | src/common/arraydef.rs:21-23 | a range denotes exactly its stepped ids, in order |
| IntArray.SpanCoversIds | src/common/arraydef.rs:58-64 | the id count is at least the number of ids, and equal if and only if every range has step one or a single id |
| IntArray.FromIds | src/common/arraydef.rs:36-46 | the loop computes the compression the following lemmas are about |
| IntArray.CompressKeepsIds | src/common/arraydef.rs:36-46 | compression keeps the multiset of the ids if and only if the largest id is not among them |
| IntArray.CompressAscending | src/common/arraydef.rs:36-64 | an ascending list comes back from iteration as it is, and the ranges are maximal |
| IntArray.LargestIdIsLost | src/common/arraydef.rs:21-46 | the largest id disappears, because the end of its range wraps around |
| NumberParser.NumberRoundTrip | src/common/parser.rs:52-63 | a printed 32-bit number followed by anything that is no number parses to itself |
| NumberParser.UnderscoresAreIgnored | src/common/parser.rs:52-63 | underscores after the first digit do not change the result, including overflow |
| NumberParser.DigitParses | src/common/parser.rs:52-63 | each of the ten digits denotes its place among them |
| NumberParser.PlaceValue | src/common/parser.rs:52-63 | a further digit multiplies by ten and adds its value, or makes the number fail if it no longer fits; a further underscore changes nothing |
| NumberParser.DecimalDigits | src/common/arraydef.rs:79-90 | numbers are printed digit by digit without leading zeros |
| ArrayParser.Parse | src/common/arrayparser.rs:34-56 | parsing the ranges and then running the overlap check accepts exactly the texts that are read completely and denote pairwise distinct ids |
| ArrayParser.IsOverlapping | src/common/arrayparser.rs:41-50 | the check on sorted ranges is true if and only if some id occurs twice |
| ArrayParser.SteppedText | src/common/arrayparser.rs:12-28 | the text `v-w:x` is accepted if and only if the range goes upwards and the step is positive and not longer than the range; it denotes every x-th id from v to w, and none if w is the largest id |
| ArrayParser.SpanText | src/common/arrayparser.rs:12-28 | the text `v-w` is accepted if and only if the range goes upwards, and denotes all ids from v to w, or none if w is the largest id |
| ArrayParser.NumberText | src/common/arrayparser.rs:12-28 | a number denotes itself, the largest one nothing |
| ArrayParser.SortKeepsIds | src/common/arrayparser.rs:42 | sorting ranges by their start keeps the multiset of ids |
| ArrayParser.MakeRangeIsSound | src/common/arrayparser.rs:19-26 | a parsed range is empty, because its end wraps around, if and only if the largest id is named |
| ArrayParser.AcceptedIsWellFormed | src/common/arrayparser.rs:12-56 | a whole accepted text denotes an array without empty ranges if and only if it does not name the largest id |
| ArrayParser.RangeRoundTrip | src/common/arraydef.rs:79-90 | any range whatever, printed with wrap-around, parses back to itself if and only if it has a form the parser builds |
| ArrayParser.ListRoundTrip | src/common/arrayparser.rs:30-39 | comma-joined ranges without a common id parse back to the same list |
| ArrayParser.Display | src/common/arraydef.rs:75-94 | the loop and the final cut print any ranges separated by a comma and a space |
| ArrayParser.DisplayExample | src/common/arraydef.rs:75-94 | a printed array of three kinds of ranges, character by character |
| ArrayParser.DisplayRoundTrip | src/common/arraydef.rs:75-94 | what `Display` prints is accepted again if and only if there is a single range |
| ArrayParser.AcceptedReprints | src/common/arrayparser.rs:30-56 | every accepted text has a canonical text with the same meaning |
| CpuRequest.RequestRoundTrip | src/client/resources.rs:9-54 | a printed CPU request parses back to itself if and only if it does not ask for zero cpus, which is refused |
| CpuRequest.RequestTexts | src/client/resources.rs:9-39 | a positive number, any white space and the name of a policy are accepted as that policy, and `all` as all |
| CpuRequest.RequestPrints | src/client/resources.rs:41-54 | how the four kinds of requests are printed |
| CpuRequest.BareNumberIsCompact | src/client/resources.rs:25 | a bare non-zero number means the compact policy |
| JobModel.CountUpdate | src/server/job.rs:267-346 | changing one task moves it from one count to another and touches no other |
| JobModel.WaitingIsCounted | src/server/job.rs:77-85 | the waiting count computed by subtraction is the number of waiting tasks, so it never underflows |
| JobModel.RunningKeeps | src/server/job.rs:267-277 | starting a waiting task changes that task only and keeps the job's invariant; any other task is left alone |
| JobModel.WaitingKeeps | src/server/job.rs:307-312 | a running task put back changes that task only and keeps the invariant |
| JobModel.FinishedKeeps | src/server/job.rs:289-305 | finishing keeps worker and start date, and completes and unregisters the job exactly when all tasks are terminal |
| JobModel.FailedKeeps | src/server/job.rs:314-331 | the same for a failure |
| JobModel.CancelKeeps | src/server/job.rs:333-346 | the same for a cancellation of a waiting or running task |
| JobModel.TerminationChecked | src/server/job.rs:279-287 | termination read off the counters is that all tasks are terminal |
| JobStatus.StatusIsFiveRules | src/client/status.rs:56-75 | the status computed from counters is the documented five-rule status of the tasks (docs/arrays.md), and its assertion holds |
| JobObject.JobObject.SetRunningState | src/server/job.rs:267-277 | the mutating method performs exactly the transition on values |
| JobObject.JobObject.SetWaitingState | src/server/job.rs:307-312 | likewise |
| JobObject.JobObject.SetFinishedState | src/server/job.rs:289-305 | likewise, with the control messages it sends |
| JobObject.JobObject.SetFailedState | src/server/job.rs:314-331 | likewise, with the control messages it sends |
| JobObject.JobObject.SetCancelState | src/server/job.rs:333-346 | likewise, with the control messages it sends |
| JobObject.JobObject.CheckTerminated | src/server/job.rs:279-287 | sets the date and unregisters exactly when the counters say so |
| JobObject.JobObject.NonFinishedTaskIds | src/server/job.rs:254-265 | collects exactly the waiting and running tasks, each once, in whatever order the map is visited |
| ServerModel.Floor | src/server/state.rs:105-110 | the greatest key not above the task id, none exactly if all are above |
| ServerModel.LookupIsExact | src/server/state.rs:104-117 | the lookup in the sparse map finds a job if and only if the task is one of the job's own, next to gaps as well |
| ServerModel.NewJobInv | src/server/job.rs:130-166 | a new job has only waiting tasks; it is a proper job with no more tasks than ids reserved if and only if its array has an id and not more than `id_count` says |
| ServerModel.SubmitKeeps | src/server/client.rs:364-404 | a submission never trips the assertions of `add_job` and leaves every other job as it was; it keeps all blocks of ids disjoint, and the invariant, if and only if the array has an id and not more than `id_count` says |
| ServerModel.SubmitExact | src/server/client.rs:364-404 | what a submission adds: the job under the next id, its tasks waiting, with the ids of the array and consecutive backend ids from the next free one on, which moves on by one or by the spans modulo 2^32 |
| ServerModel.FirstSubmission | src/server/state.rs:215-222 | a new server counts jobs and tasks from one |
| ServerModel.EmptySubmissionCollides | src/server/state.rs:95-134 | the next submission panics if and only if the one before reserved no id |
| ServerModel.EmptyFileCollides | src/client/commands/submit.rs:167-169 | the submission made from an empty file is such a one |
| ServerModel.DefsMatchJob | src/server/client.rs:367-385 | the definitions sent to the backend match the job's map id for id if and only if there are enough entries and the job is no one-element array of a non-zero id |
| ServerSteps.TransitKeeps | src/server/job.rs:267-346 | a transition panics exactly outside the table of states; otherwise it changes that task only, and completion date and unregistration follow |
| ServerSteps.ProcessTaskKeeps | src/server/state.rs:156-181 | a legal message about one task changes the view of that task only and keeps all invariants |
| ServerSteps.FailureLimit | src/server/state.rs:159-164 | on the states of the tasks: if more tasks of the job have failed than its limit says, exactly its waiting and running tasks are to be canceled, and otherwise, or without a limit, none |
| ServerSteps.ProcessAllKeeps | src/server/state.rs:202-205 | so does the loop over the tasks of a lost worker |
| ServerSteps.CancelAllKeeps | src/server/client.rs:290-295 | so does the loop over the canceled tasks of an answer |
| ServerSteps.CanceledAtMostAll | src/server/client.rs:296 | the count of already finished tasks does not underflow |
| ServerSteps.ReplayMeans | src/stream/server/rpc.rs:270-284 | the assertions hold for a sequence of messages if and only if each registers a stream that is not open or unregisters an open one; which streams are then open |
| ServerObject.State.SubmitJob | src/server/client.rs:364-404 | new ids, definitions and the new job, exactly as on values |
| ServerObject.State.AddJob | src/server/state.rs:95-102 | inserts the job and its base id and nothing else |
| ServerObject.State.FindJob | src/server/state.rs:104-117 | returns what the lookup on values returns |
| ServerObject.State.ProcessTaskChange | src/server/state.rs:167-186 | changes the found job as on values and no other object |
| ServerObject.State.ProcessTaskFailed | src/server/state.rs:148-165 | records the failure and returns for cancellation, each once, exactly the waiting and running tasks if the number of failed tasks of the job is now above its limit, and nothing otherwise or without a limit |
| ServerObject.State.ProcessWorkerNew | src/server/state.rs:188-191 | takes an unknown worker in as online |
| ServerObject.State.ProcessWorkerLost | src/server/state.rs:193-206 | takes the worker offline and puts every named task back to waiting |
| ServerObject.State.ApplyCancel | src/server/state.rs:60-66 | cancels every task the backend reports |
| Backend.ReplayFirst | src/server/rpc.rs:92-117 | an event can be applied ahead of earlier ones that do not concern the task: delayed answers do no harm |
| Backend.CancelIsLast | src/server/state.rs:59-66 | after a reported cancellation nothing about the task is in flight |
| Pairing.ReadQueues | src/server/rpc.rs:109-113 | an answer read from the backend finds the task that sent its request first in the queue, and that task waits for an answer of this kind |
| Mirror.EmitKeeps | src/server/rpc.rs:92-117 | an event that reports exactly what changed in the backend keeps the mirror |
| Mirror.NextEventIsLegal | src/server/job.rs:289-346 | the transition asked for by the next message, or by any delayed answer, is legal in the server's current state |
| Mirror.ApplyKeeps | src/server/state.rs:148-206 | applying it keeps the mirror for all tasks |
| Mirror.SubmitKeepsMirror | src/server/client.rs:364-404 | a submission keeps the mirror although the backend does not know the tasks yet |
| ServerRun.LostWorkerKeepsMirror | src/server/state.rs:193-206 | a lost worker's message is processed without panic and keeps the mirror |
| ServerRun.WakeKeepsMirror | src/server/client.rs:275-301 | a cancel answer applied arbitrarily late is processed without panic and keeps the mirror |
| ServerRun.ServeKeepsMirror | src/server/rpc.rs:118-128 | the backend's answer to a request keeps the mirror |
| ServerRun.WorkerEventIsLegal | src/server/state.rs:90-93 | a new worker is unknown and a lost one is known, so neither lookup fails |
| ServerSafety.ServeKeepsCover | src/server/state.rs:44-75 | serving a cancel request leaves every task it named ended, or refused |
| ServerTheorems.SafeStep | src/server/rpc.rs:92-131 | in every state with the invariant every action is free of panics, keeps the invariant and moves jobs only forward |
| ServerTheorems.RunNeverPanics | src/server/job.rs:267-346 | no run of submissions, cancellations, backend messages, lost workers and delayed answers reaches a panic, failed assertion, failed unwrap, answer of the wrong kind, empty response queue or underflow of the canceled count |
| ServerTheorems.RunMirrors | src/server/state.rs:148-206 | in every reachable state the server's view of a task, brought up to date by what is in flight, is the backend's |
| ServerTheorems.RunPairsAnswers | src/server/rpc.rs:36-47 | in every reachable state every woken task has the answer to the request of its own job, although answers carry no id |
| ServerTheorems.RunEvolves | src/server/job.rs:279-346 | over every run terminal states are absorbing, completion dates never change, jobs neither lose nor gain tasks, and task ids stay |
| ServerTheorems.RunCounts | src/server/job.rs:77-85 | in every reachable state each counter is the number of tasks in that state, the status is the documented one, and the completion date is set exactly when all tasks are terminal |
| ServerTheorems.RunLookup | src/server/state.rs:22-35 | in every reachable state the sparse index agrees with the full map from tasks to jobs |
| ServerTheorems.RunRegisters | src/stream/server/rpc.rs:270-284 | over every run each message to the stream server finds the stream as its assertion says, no stream is registered twice, and the open streams are exactly those of the logged jobs that are not complete |
| ServerTheorems.RunMeetsAssertions | src/server/client.rs:275-301 | in every reachable state a new worker is unknown, a lost one known, and an answer to a cancel request names an existing job and no more tasks than it has |
| ServerTheorems.RunCancelsRest | src/server/state.rs:159-164 | in every reachable state in which more tasks of a job have failed than its limit says, every waiting or running task of the job has a cancel request under way or is over in the backend, unless the backend refused since the latest such request was issued |
| ServerTheorems.RunSpawns | src/server/state.rs:156-164 | at every step of every run: a message from the backend makes the server issue a cancel request if and only if it is a failure after which more tasks have failed than the limit says and open tasks are left, and then one request for exactly these; no other action issues one |
| ServerTheorems.RunCancelsOnlyOver | src/server/state.rs:44-75 | in every reachable state every cancel request the server issued itself is for a job with more failed tasks than its limit says |
| ServerTheorems.RunWorkers | src/server/state.rs:188-206 | in every reachable state a worker is known exactly if it ever connected, and online exactly if it is alive in the backend, unless a message about it is under way |
| Rpc.Step | src/server/rpc.rs:36-47 | every action keeps: the waiting senders are in the order of the answers and requests under way |
| Rpc.AnswersReachTheirRequesters | src/server/rpc.rs:92-131 | for every interleaving of requesters and broadcasts the queue is never popped when empty and every requester gets the answer to its own request |
| Rpc.BroadcastInBetween | src/server/rpc.rs:92-131 | a run of two requests with a broadcast between their answers, in which each gets its own |
| ClientRequests.AcceptedIsSound | src/common/arrayparser.rs:12-56 | an accepted text names no id twice, and denotes an array the server can handle without wrap-around if and only if the largest id is not named and the spans stay below 2^32 |
| ClientRequests.WideArray | src/common/arraydef.rs:58-60 | an accepted text without the largest id for which fewer ids are reserved than it has tasks |
| ClientRequests.SortSorts | src/server/client.rs:470 | the sort is a sorted permutation |
| ClientRequests.ResubmitSelects | src/server/client.rs:441-474 | a resubmitted array job asks for the ids of all tasks without a filter and otherwise for exactly those whose task is in a named status, ascending and in maximal ranges, for any iteration order; there is nothing to do if and only if no task is asked for |
| ClientRequests.ResubmitSingle | src/server/client.rs:442-452 | a single task is resubmitted as a simple job if and only if there is no filter or it names the status of the task |
| ClientRequests.MatchingAre | src/server/client.rs:453-466 | the matching ids are those of tasks in a named status, state by state, or of all tasks |
| ClientRequests.ResubmittedEntries | src/server/client.rs:441-480 | the definitions sent for a resubmitted job made from different lines pair every task with its own line if and only if the selected tasks are the first ones |
| ClientRequests.OwnEntryWasSent | src/server/client.rs:379-384 | the entry of a task by its place in the job is the one it was sent with |
| ClientRequests.FileMakesEachLine | src/client/commands/submit.rs:167-169 | a file of at least two lines makes a job with one task per line, numbered from zero |
| ClientRequests.SingleLosesEntry | src/server/client.rs:441-452 | a single-task job loses its line when it is resubmitted |
| ClientRequests.LinesGetMixedUp | src/server/client.rs:379-384 | three lines, the first done: resubmitting the rest does not keep the pairing |
| ClientRequests.LastIdsExist | src/server/state.rs:125-128 | the last n ids are exactly those of the newest jobs, fewer if there are fewer |
| RunRequests.RunTaskIds | src/server/job.rs:133-146 | over every run with accepted arrays no job has two tasks with the same id |
| RunRequests.RunResubmits | src/server/client.rs:432-503 | in every reachable state, for single tasks and arrays: a resubmission asks for exactly the tasks in the named statuses, or all without a filter, as a job that can be submitted again; it keeps limit and entries, drops the log, and reports nothing to do if and only if no task is asked for |
| RunRequests.RunEntries | src/server/client.rs:432-503 | at any later moment of any run, the pairing of lines in a resubmission holds if and only if the selected tasks are the first ones |
| RunRequests.RunPolls | src/server/client.rs:219-236 | over every run a job stays under its id with its number of tasks, and once terminated its counters are final |
| RunRequests.WaitOverRun | src/client/commands/wait.rs:43-147 | against any run of the server: the wait command adds for every job exactly the counters it ends with; it reports failed tasks if and only if some task of the jobs has failed at the end of the run, canceled ones if and only if none has failed and some is canceled, and success if and only if all are finished; it has nothing to do exactly if all jobs were terminated, and loses the connection only while some job was never seen terminated |
| AutoAlloc.DescriptorState.AddEvent | src/server/autoalloc/state.rs:75-80 | the event log is always the last twenty events ever added |
| AutoAlloc.DescriptorState.Refresh | src/server/autoalloc/process.rs:57-97 | keeps exactly the allocations reported alive, with their new status, and logs the others |
| AutoAlloc.DescriptorState.Schedule | src/server/autoalloc/process.rs:101-148 | submits the missing workers in the sizes the lemmas are about and tracks exactly the accepted ones |
| AutoAlloc.Tick | src/server/autoalloc/process.rs:47-51 | refresh, then schedule |
| AutoAlloc.LoopEnds | src/server/autoalloc/process.rs:118-147 | the scheduling loop ends if and only if nothing is missing or the maximum per allocation is at least one |
| AutoAlloc.KeptWorkers | src/server/autoalloc/process.rs:65-96 | a refresh keeps, drops as gone, or forgets every worker it knew |
| AutoAlloc.RefreshReports | src/server/autoalloc/process.rs:65-96 | which reply leads to what: alive keeps the allocation under its new status, gone is logged as finished under its id, an error as a failed query; both lists keep the order |
| AutoAlloc.SubmissionReports | src/server/autoalloc/process.rs:118-147 | an accepted submission is logged and tracked as queued under the id of the queue with the workers asked for, a rejected one is logged as failed; both lists keep the order |
| AutoAlloc.SubmittedWorkers | src/server/autoalloc/process.rs:118-147 | every submitted worker is tracked or was rejected |
| AutoAlloc.SizesAdd | src/server/autoalloc/process.rs:118-147 | the submissions add up to what is missing, each is between one and the maximum, and their number is the quotient rounded up |
| AutoAlloc.TickReachesTarget | src/server/autoalloc/process.rs:47-148 | a tick never exceeds the target and falls short of it by exactly the rejected workers |
| AutoAlloc.NeverAboveTarget | src/server/autoalloc/process.rs:31-45 | the same over any number of ticks with arbitrary replies; every allocation has between one and the maximal number of workers |
| AutoAlloc.HeldIsTrackedAndForgotten | src/server/autoalloc/process.rs:57-148 | over any number of ticks the queue holds what is tracked plus all that was ever forgotten |
| AutoAlloc.QueueOverallocation | src/server/autoalloc/process.rs:86-94 | after every tick of every sequence the queue holds the target plus all workers ever forgotten minus those just rejected; so it is within the target if and only if the first do not exceed the second, and after a tick without rejections if and only if no status query has ever failed |
| AutoAlloc.OverallocationHappens | src/server/autoalloc/process.rs:86-94 | one failed query leaves the queue with twice the target, also after further ticks without any failure |
| WaitLoop.PolledIds | src/client/commands/wait.rs:67-73 | the compressed ids of a poll denote exactly the remaining jobs, each once |
| WaitLoop.TotalAccounts | src/client/commands/wait.rs:86-89 | if each job's counters account for its tasks, so do the totals |
| WaitLoop.TasksAreSummed | src/client/commands/wait.rs:52-53 | the total number of tasks is the sum over the set of job ids |
| WaitLoop.AddTerminated | src/client/commands/wait.rs:80-83 | a terminated job is added once and no longer waited for |
| WaitLoop.Poll | src/client/commands/wait.rs:65-84 | one poll looks at every remaining job once |
| WaitLoop.WaitForJobs | src/client/commands/wait.rs:43-147 | on exit every job has been added exactly once with the counters it had when first seen terminated, and finished, failed and canceled add up to all tasks waited for; the result is failed if and only if some job has failed tasks, canceled if and only if none has and some has canceled ones, and success if and only if all tasks waited for are finished; without exit some job was never seen terminated |

## Left out

- Sockets, encryption, authentication, message framing and serialisation: messages are values.
- The scheduler and runtime of tako: only the life cycle it reports, under the assumptions above.
- The worker side of streaming (connection reuse, dropping buffered output of canceled tasks): only the order in which it sends.
- Process launching, placeholder substitution, CPU pinning and hardware or PBS/SLURM detection.
- Tables, colours, the task prefix and UTF-8 rendering of `show`, and the progress line of the wait command with its running counters.
- Clocks: dates are parameters, only that they are set once and kept matters.
- Two jobs that stream into the same file, which the documentation excludes.
- Opening and removing files, `get_stream` and the statistics of the stream server; one writer per job is modelled from its start on.
- `add_descriptor` and the map of descriptors of the automatic allocator: one queue is modelled, removal of a queue in the middle of a tick is not.
- Overflow of file positions, byte totals, job ids, backend ids and job counters: all unbounded here.
- Names, environment, resources, priority and time limits of a submission.
- The parser of status lists and the `--each-line` and similar ways to make arrays on the command line.
- Binary search, sorting and the maps of the standard library are used through their contracts; in-place update of a task's instances inside the index is modelled on values.
- `get_task_state_mut` checks the id of a single-task job only in debug builds; the model treats a wrong id as a panic always, and no run reaches it.
- What the server does after a submission that is not `Fitting`: the theorems about runs exclude it; `SubmitKeeps` says which of them break the invariant at once.
- AutoAlloc.DescriptorState.Schedule: requires that its loop ends, by the exact condition of `LoopEnds`; otherwise the source submits allocations of zero workers forever.
- AutoAlloc.Tick: requires the same.
- ClientRequests.ResubmittedEntries: speaks of jobs as `--each-line` creates them, with one entry per task numbered from zero; a job that is itself a resubmission is not covered.
- WaitLoop.WaitForJobs: the source polls until it is done or the connection breaks; the polls it gets are a finite list here.
