# Panopticon Linux agent: verified models

Dafny models of the parts of the Panopticon endpoint sensor whose correctness is hardest to see from the code, with
machine-checked proofs of what those parts are for. `dafny verify dfyconfig.toml` checks everything.

- **Command channel** (`Text`, `LedgerFormat`, `CommandPolicy`, `CommandMachine`, `CommandSafety`, `CommandAdmission`,
  `CommandAnswers`, `CommandLedger`, `CommandChannel`). A Manager delivers commands and may redeliver them; the sensor keeps a replay
  ledger, an append-only file that survives crashes at any byte. The file is a byte string, memory a map, and a state
  machine makes every delivery, decision, write with its possible failures, execution, answer, crash, restart, loss of the
  ledger and tick of the clock a step. The theorems are about all runs of the machine: only an admissible command is
  executed, at most once, all answers to it are the same, and losing the ledger reopens only a window of the clock skew. The ledger and
  the processor are classes whose methods leave a run of that machine behind. The executor and the Manager are objects
  whose lists of calls and of submitted results are the machine's, so the theorems are about what the bodies really call.
- **Loss accounting** (`LossTable`, `LossAccounting`). The pipeline counts every record it could not write and every
  record its log dropped, even when the records that said so are dropped in turn. A class with the pipeline's fields and
  loops against any log with its contents, and the conservation of the counts.
- **Wake-up protocol** (`WakeProtocol`). Producers share one timestamp without a lock; one reader alternates between a
  5 ms poll and a 1 s wait. A state machine over all interleavings, exactly when a wake-up is lost, and the exact
  condition on the constants.
- **JSON** (`Utf8`, `JsonStrings`, `Json`, `JsonReader`, `JsonGrammar`, `JsonParser`, `JsonWriter`). Writer and reader
  were written independently, with two UTF-8 recognisers; they undo each other (RFC 8259, RFC 3629), as functions and as
  objects. The grammar of RFC 8259 stands apart from both, and the reader accepts exactly what it spells.
- **Indexes and services** (`ProcessTree`, `TerminateTree`, `HashService`, `EntityGraph`, `Fim`, `FimMonitor`,
  `FimFormat`, `ArtifactUpload`, `ContainerTracker`). Each with an invariant of whole runs.
- **Arithmetic and codecs** (`Calendar`, `Timestamps`, `Base64`, `SigningInput`).

A `string` is a byte string, one character for each byte. Objects that the program updates in place are classes; the
environment (system calls, the Manager, other threads, procfs, the clock) is a parameter that may answer in any way.

## Where the code does less than it seems to promise

- A result submitted more than a day after a command's expiry may differ from earlier ones, because the entry may have
  been forgotten at a restart (`CommandAnswers.OneStableAnswer`, `CommandAnswers.ForgottenIsRefused`,
  `CommandAnswers.AnswersCanDiffer`).
- A ledger from before epochs whose last entry is forgotten is rewritten as an empty file, which the next start takes
  for a new ledger with a new epoch (`LedgerFormat.ReopenKeepsTheEpoch`, `LedgerFormat.EpochCanChange`).
- A failed sync after a complete write leaves memory one line behind the file; when that line is the reported one, the
  repeat makes the file corrupt, and the next start sets it aside (`CommandAnswers.SecondReportCorrupts`,
  `CommandAnswers.UnsyncedReportCorrupts`). No other failed sync does that
  (`CommandAnswers.LoadsUntilReportUnsynced`).
- The comment on the reader's loop (src/sensor/ebpf_process.cpp:566-567) and docs/adr/029-ring-buffer-wake-policy.md:28-36
  say that a record submitted during the long wait wakes the reader and that racing updates of the timestamp only wake it
  more often. With flags 0 the kernel wakes a reader that has caught up, so a record without a wake-up that enters the
  empty ring ahead of the waking one takes its wake-up away, and both wait for the 1 s timeout, with the shipped constants
  too (`WakeProtocol.OvertakingLoses`, `WakeProtocol.WaitsForTimeout`, `WakeProtocol.BothWait`,
  `WakeProtocol.LostAsShipped`). That is the only way to lose one with constants that fit
  (`WakeProtocol.LostIffOvertaken`). With a forced wake-up the constants alone suffice (`WakeProtocol.NoLostWakeup`,
  `WakeProtocol.NeverLost`).
- The comment on the table of written losses (src/sensor/pipeline.cpp:808-809) speaks of over-reports only, but an entry
  alone in its stage is forgotten (line 817), which under-reports (`LossAccounting.TableForgets`; the exact condition is
  `LossTable.FoldKeepsTotal`); and a full waiting list adds a report to one of another stage (line 827; the exact
  condition is `LossTable.DeferredTotal`). `LossAccounting.Pipeline.Conservation` holds in every state, with one term
  for what full lists moved between stages, one for what the table forgot and one for what was said twice.
- Distinct object keys may become equal when their invalid bytes are replaced, and the reader then refuses the writer's
  output (`JsonReader.KeysCanCollide`, `Json.RoundTrip`).
- The two-scan rule for exits remembers pids, not instances, so an instance with a reused pid can be ended after one scan
  (`EntityGraph.EndedAfterOneScan`).
- A process seeded while it is followed in another container stays a member of both
  (`ContainerTracker.JoinKeepsInverse`, `ContainerTracker.SeedingKeepsInverse`).

## Model

| member | source | states |
|---|---|---|
| LedgerFormat.CleanIsIdempotent | src/sensor/command_channel.cpp:41-49 | cleaning a stored detail again changes nothing, so a repeat sends exactly what was stored |
| LedgerFormat.LineReadsBack | src/sensor/command_channel.cpp:432-472 | the line of every well-formed edit, read by the loading loop, has the effect the format gives it, whatever the image before it |
| LedgerFormat.LineMeansEdit | src/sensor/command_channel.cpp:563-607 | for an edit that fits the image, that effect is exactly the edit's change of memory |
| LedgerFormat.LoadOk | src/sensor/command_channel.cpp:429-476 | whatever file loads is an image the ledger could have written |
| LedgerFormat.CorruptStaysCorrupt | src/sensor/command_channel.cpp:431-476 | a corrupt beginning is not repaired by anything appended to it |
| LedgerFormat.AppendIsEdit | src/sensor/command_channel.cpp:529-554 | a complete append changes what the file says by the edit and nothing else |
| LedgerFormat.TornAppend | src/sensor/command_channel.cpp:421-428 | a crash at any byte inside the line leaves what the file said before |
| LedgerFormat.RenderLoads | src/sensor/command_channel.cpp:492-500 | the compact rewrite reads back as the image it was made from, in every order of its entries |
| LedgerFormat.OpenLeavesItsImage | src/sensor/command_channel.cpp:477-508 | after opening, the file holds whole lines only and says exactly what memory holds |
| LedgerFormat.CrashDuringAppend | src/sensor/command_channel.cpp:421-508 | any run of edits with a crash at any byte of the last line: reopening is never corrupt and gives the entries before that append, or after it when its last byte was written, less those that may be forgotten, under the same epoch |
| LedgerFormat.OpenForgetsOnlyTheExpired | src/sensor/command_channel.cpp:480-485 | opening keeps every entry unchanged except reported ones more than a day past expiry, and forgets all of those |
| LedgerFormat.ReopenKeepsTheEpoch | src/sensor/command_channel.cpp:477-504 | reopening at once changes nothing if and only if the ledger is not one from before epochs with no entry left |
| LedgerFormat.EpochCanChange | src/sensor/command_channel.cpp:477-504 | every ledger of one reported command without an epoch line, a day past its expiry: it opens empty, its rewrite is the empty file, and the next opening gives it a new epoch |
| CommandPolicy.AdmittedInTime | src/sensor/command_channel.cpp:898-912 | an admitted command is unexpired, not from the future beyond the skew, and not issued before the ledger's epoch |
| CommandPolicy.DecidedByObjections | src/sensor/command_channel.cpp:863-927 | each refusal has its objection, stated over the fields of options, command, signature and the clock; a command is refused for the first objection it meets in the order of the checks, and admitted if and only if it meets none |
| CommandPolicy.AdmittedIff | src/sensor/command_channel.cpp:868-927 | a command is admitted if and only if agent and host match, a pinned key verifies its signature and its issue time (without one, signatures are not required), the boot rule and the time window hold, the mode is not off, the action is allowed, and a change to be enforced is within the rate of the last minute; it is for show exactly when it would change the host outside enforcement |
| CommandPolicy.RecentIsWindow | src/sensor/command_channel.cpp:923-924 | dropping old readings from the front of the list leaves as many as lie within the last minute |
| CommandPolicy.CodeIsReason | src/sensor/command_channel.cpp:863-927 | every refusal of the whole chain of checks has a reason code the ledger stores and reads back |
| CommandSafety.AppendIsSafe | src/sensor/command_channel.cpp:529-554 | no append, however it ends (synced, cut back, stuck, not synced, torn by a crash), opens the way to a second execution |
| CommandSafety.StartIsSafe | src/sensor/command_channel.cpp:477-508 | a restart, with its purge of expired entries and its compaction, keeps the guard against a second execution |
| CommandSafety.NextIsSafe | src/sensor/command_channel.cpp:863-1008 | every step of the protocol (delivery, decision, intent, execution, answer, submission, closing, crash, restart, loss of the ledger, passage of time) keeps the invariant |
| CommandSafety.AtMostOnce | src/sensor/command_channel.cpp:929-968 | over every run in which the ledger is neither lost nor set aside, no command id is executed twice, whatever is redelivered and whatever fails |
| CommandSafety.ResetSafety | src/sensor/command_channel.cpp:899-912 | over every run whatever, a second execution needs a later ledger, and for a command that says when it was issued that ledger began within the clock skew of the first execution; with a pinned keyring every executed command says so |
| CommandAdmission.OnlyAdmittedRun | src/sensor/command_channel.cpp:863-968 | over every run, each execution goes back to a delivery of that command that met every condition of admission at that time, with the dry-run flag exactly as the mode asks |
| CommandAdmission.ReadingsInOrder | src/sensor/command_channel.cpp:920-927 | in every reachable state the rate readings ascend, so the pruned list holds exactly the changes of the last minute |
| CommandAnswers.NeverCorrupt | src/sensor/command_channel.cpp:529-577 | over every run without a failed sync the file says exactly what memory holds and no restart finds it corrupt |
| CommandAnswers.LoadsUntilReportUnsynced | src/sensor/command_channel.cpp:429-476 | over every run, whatever other syncs fail, the file loads and no restart finds it corrupt until the sync of a reported line fails |
| CommandAnswers.SecondReportCorrupts | src/sensor/command_channel.cpp:466-472 | a failed sync of a reported line, followed by the repeat of the answer, makes the file corrupt for good |
| CommandAnswers.UnsyncedReportCorrupts | src/sensor/command_channel.cpp:1271-1280 | that happens in a run: from every state about to close a done command, a failed sync, the repeat of the answer, its close and a restart lead to a ledger that is set aside |
| CommandAnswers.OneStableAnswer | src/sensor/command_channel.cpp:972-992 | over every run whose appends succeed or die with the process, all results submitted for a command id are the same, unless the later one comes more than a day after the recorded expiry |
| CommandAnswers.ForgottenIsRefused | src/sensor/command_channel.cpp:480-485 | any run that has sent a result other than a rejection for a command that has expired and that opening forgets goes on, by restart, redelivery, record and submission, to a second result for the same id that is a rejection |
| CommandAnswers.AnswersCanDiffer | src/sensor/command_channel.cpp:972-992 | the exception is needed: for every command a new ledger admits and every outcome but a rejection there is a run without a failed append that sends two different results for its id |
| CommandLedgers.SplitTabs | src/sensor/command_channel.cpp:373-386 | the field loop gives the fields of the line |
| CommandLedgers.DropTail | src/sensor/command_channel.cpp:423-428 | what is left is the text up to its last line break |
| CommandLedgers.ReadLines | src/sensor/command_channel.cpp:429-476 | the loop over the lines and their fields computes what the file says, or stops at the first malformed line |
| CommandLedgers.ForgetExpired | src/sensor/command_channel.cpp:480-485 | the purge loop keeps exactly the entries that may not be forgotten |
| CommandLedgers.WriteCompact | src/sensor/command_channel.cpp:492-500 | the rewrite loop produces the compact form over an order of all entries |
| CommandLedgers.OpenFile | src/sensor/command_channel.cpp:400-508 | the parts together decide as the specification of opening does, and leave a file that specification allows |
| CommandLedgers.CommandLedger.Append | src/sensor/command_channel.cpp:529-554 | the write loop leaves the file and the descriptor as one of the five fates of an append |
| CommandLedgers.CommandLedger.MarkReceived | src/sensor/command_channel.cpp:563-577 | a new id is appended and entered, a known one refused, a full ledger an error; memory changes only after a synced append |
| CommandLedgers.CommandLedger.MarkDone | src/sensor/command_channel.cpp:579-597 | only a received entry is closed, with the cleaned detail; memory changes only after a synced append |
| CommandLedgers.CommandLedger.MarkReported | src/sensor/command_channel.cpp:599-607 | only a done entry becomes reported; memory changes only after a synced append |
| CommandChannels.CommandChannel.Examine | src/sensor/command_channel.cpp:863-927 | the checks in the order of the code give the decision that AdmittedIff and DecidedByObjections characterise, and the rate window is pruned to the last minute |
| CommandChannels.CommandChannel.Handle | src/sensor/command_channel.cpp:850-992 | every path leaves a run of the protocol that touches one entry; the executor is called once for this command, with the decided dry-run flag, exactly when it was admitted, recorded and, for a collection, accepted; the answer is the executor's or the refusal's |
| CommandChannels.CommandChannel.ResumeInterrupted | src/sensor/command_channel.cpp:972-992 | an interrupted command is answered and recorded as events of the protocol |
| CommandChannels.CommandChannel.Reject | src/sensor/command_channel.cpp:994-1008 | an unreadable but addressable command is refused and recorded as events of the protocol |
| CommandChannels.CommandChannel.Report | src/sensor/command_channel.cpp:1251-1285 | the Manager is given exactly this result, once; no other entry changes; without a fault an entry that has an answer is reported afterwards |
| CommandChannels.CommandChannel.TellAgain | src/sensor/command_channel.cpp:1300-1310 | the Manager is given the stored answer to every done command once, as it was stored, and nothing else; without a fault everything is reported afterwards |
| CommandChannels.CommandChannel.TakeItem | src/sensor/command_channel.cpp:1335-1362 | through the results, executor calls and entries alone: a readable command new to the ledger gets exactly one result with its id and correlation and, without a fault and with room, is reported afterwards; a garbled but addressable new one gets exactly one invalid_command rejection; one that is done or reported gets none; no other entry changes |
| CommandChannels.CalledIffAdmissible | src/sensor/command_channel.cpp:929-968 | the executor is called for a new command if and only if it is admissible, its intent is on record and the Manager accepts it where it is asked; then once, with the dry-run flag exactly as the mode asks |
| CommandChannels.CommandChannel.Step | src/sensor/command_channel.cpp:1287-1367 | a whole step: one indeterminate answer for each interrupted command, one stored answer for each done one, then for every item of the poll exactly what that item calls for, the executor called for nothing else; a step without a fault leaves no entry received or done |
| CommandChannels.CommandChannel.ExecutorCalledOnce | src/sensor/command_channel.cpp:972-992 | in every state of the object, over this process and all before it, the executor was called at most once for each command id, unless the ledger was lost or set aside |
| CommandChannels.CommandChannel.SubmissionsAgree | src/sensor/command_channel.cpp:1300-1310 | in every state after appends that succeeded or died with the process, the results given to the Manager for one id are the same, until a day after the recorded expiry |
| CommandChannels.Prepare | src/sensor/command_channel.cpp:510-523 | a corrupt ledger is set aside and a new one begun, one over its bound is an error, and the new process continues the run |
| WakeProtocol.WakeCell.WakeFlags | bpf/panopticon.bpf.c:93-107 | run without interference: a wake-up exactly when the gap has passed, and the cell refreshed at most once a millisecond |
| WakeProtocol.Reader.Polled | src/sensor/ebpf_process.cpp:581-592 | one turn of the reader's loop moves between the short poll and the long wait as specified |
| WakeProtocol.CellNeverAhead | bpf/panopticon.bpf.c:84-107 | in every interleaving the shared timestamp never exceeds the latest record timestamp taken |
| WakeProtocol.NoLostWakeup | src/sensor/ebpf_process.cpp:562-595 | in every interleaving with constants that fit, where no record overtakes a waking one or wake-ups are forced, a reader in the long wait with unread records is already woken (or, forced, about to be, with no record waiting as long as the latency bound) |
| WakeProtocol.NeverLost | src/sensor/ebpf_process.cpp:562-595 | under the same conditions no state of any run has lost its wake-up |
| WakeProtocol.LostIffOvertaken | bpf/panopticon.bpf.c:93-107 | with constants that fit, a run of the program loses a wake-up if and only if in it a record without a wake-up is submitted into the waiting reader's empty ring ahead of a waking one in flight |
| WakeProtocol.LostUntilTimeout | docs/adr/029-ring-buffer-wake-policy.md:13-14 | while the poll goes on a lost wake-up stays lost: what is submitted behind an unread record does not wake the reader |
| WakeProtocol.WaitsForTimeout | src/sensor/ebpf_process.cpp:576-588 | once a wake-up is lost, the poll ends with the long timeout and not before, and what was unread has waited for it |
| WakeProtocol.OtherwiseLost | src/sensor/ebpf_process.cpp:569-571 | whenever the constants do not fit, some run in which no record overtakes loses a wake-up, forced or not: the condition on the constants is exact |
| WakeProtocol.ShippedConstantsFit | src/sensor/ebpf_process.cpp:569-571 | 20 ms gap and 6 polls of 5 ms fit exactly the latencies up to 10 ms |
| WakeProtocol.OvertakingLoses | docs/adr/029-ring-buffer-wake-policy.md:13-30 | whatever the constants, a record without a wake-up can overtake the waking one just after the long wait began, and both are unread with nothing left to wake the reader |
| WakeProtocol.BothWait | docs/adr/029-ring-buffer-wake-policy.md:34-36 | however that run goes on, both records are unread until the long timeout has passed in full |
| WakeProtocol.LostAsShipped | src/sensor/ebpf_process.cpp:569-571 | with the shipped constants and every latency, from every initial state, some run loses a wake-up |
| LossTable.DeferredTotal | src/sensor/pipeline.cpp:822-828 | how a refused report changes the waiting total of every set of stages, and that the total grows by the report's own weight if and only if the full list does not add it to a report of another kind |
| LossTable.FoldKeepsTotal | src/sensor/pipeline.cpp:806-819 | folding keeps the tracked total of a set of stages if and only if a later entry has the oldest one's stage, or the oldest says nothing that counts |
| LossAccounting.Pipeline.Emit | src/sensor/pipeline.cpp:358-374 | a data record the log takes is in its contents under the next number, a refused one takes none and is counted as unwritten; the accounts are kept |
| LossAccounting.Pipeline.EmitLoss | src/sensor/pipeline.cpp:800-829 | the log takes exactly one loss record, under the next number, or none; the table, the waiting list and the log's contents after it are given exactly; the accounts grow by its weight and by what a full list moved |
| LossAccounting.Pipeline.Fold | src/sensor/pipeline.cpp:806-819 | past its bound the table is the folded one: the oldest entry absorbs the next of its stage, or is forgotten when it is alone in it, and is then tracked no more |
| LossAccounting.Pipeline.Gather | src/sensor/pipeline.cpp:835-855 | the two loops leave exactly the entries outside the dropped ranges and, for every set of stages, bundle the sum of those inside, once for each stage |
| LossAccounting.Pipeline.CarryDropped | src/sensor/pipeline.cpp:835-862 | what dropped loss records said is written again or waits: the accounts change only by what a full list moved |
| LossAccounting.Pipeline.ForgetDelivered | src/sensor/pipeline.cpp:1182-1188 | the table left is exactly that of the undelivered records, in order |
| LossAccounting.Pipeline.ReportUnwritten | src/sensor/pipeline.cpp:1128-1135 | the refused records not yet reported are reported, each once |
| LossAccounting.Pipeline.ReportDropped | src/sensor/pipeline.cpp:1189-1197 | every range the log dropped is reported, and what was lost with it is said again |
| LossAccounting.Pipeline.RetryWaiting | src/sensor/pipeline.cpp:1121-1127 | every waiting report is appended again, first and in order; if the log refuses nothing, none waits afterwards |
| LossAccounting.Pipeline.CollectLosses | src/sensor/pipeline.cpp:1117-1197 | the whole collection keeps the accounts, adds exactly the losses found and the records lost at recovery, takes every loss the log had at the start, writes no data record, moves counts between stages only with the waiting list full, and tracks no more than it had and appended; when a retry is due, every report that waited is attempted first and in order and is in the log under a number of this call or was refused, and a log that refuses nothing leaves none waiting |
| LossAccounting.Pipeline.Conservation | src/sensor/pipeline.cpp:831-834 | in every reachable state: what the loss records in the log that survive say, what dropped ones not said again said and what waits add up to every loss reported, plus what full waiting lists moved between stages, plus what was said twice; each refused record and each dropped number is counted once; over all stages nothing is moved |
| LossAccounting.Pipeline.NothingForgotten | src/sensor/pipeline.cpp:831-834 | while at most 8192 were tracked nothing is said twice, and, unless the delivery cursor passed a dropped loss record, what is missing is still tracked |
| LossAccounting.Pipeline.WholeStory | src/sensor/pipeline.cpp:831-834 | under those conditions, once all losses are taken, the surviving records and the waiting reports tell every loss |
| LossAccounting.Pipeline.UntrackedIsMissing | src/sensor/pipeline.cpp:817 | a loss record that was dropped and taken and is no longer tracked is missing by its whole weight |
| LossAccounting.TableForgets | src/sensor/pipeline.cpp:806-819 | the under-report exists: one loss of a stage, then 8192 of another, all written; the first record dropped and taken; the surviving records and the waiting reports say less than was reported |
| LossAccounting.AnyRun | src/sensor/pipeline.cpp:1117-1197 | over every sequence of records, collections and interference of the log: the reported losses are those of the actions, every record emitted is in the log or counted as refused, records lost at recovery are counted by the first collection; no count changes its stage while fewer than 64 reports wait after each action or all stages are counted; and while the table's size with the records appended stays within 8192 and the cursor passes no dropped loss record, what exists, what waits and what is still tracked add up to every loss reported; and if the log refuses nothing during the run and one of its collections has a retry due, no report waits at its end |
| Utf8.ValidUtf8Sequence | src/sensor/json.cpp:13-33 | the writer's loop computes its specified length |
| Utf8.RecognisersAgree | src/sensor/json_reader.cpp:195-215 | the writer's decode-and-range check and the reader's table accept the same sequences with the same length at every position of every text |
| Utf8.EncodingIsRecognised | src/sensor/json_reader.cpp:175-193 | the encoding of every scalar value is recognised with its whole length |
| Utf8.RecognisedIsEncoding | src/sensor/json_reader.cpp:195-215 | every recognised sequence is the encoding of a scalar value (section 4 of RFC 3629) |
| JsonStrings.AppendStringBody | src/sensor/json.cpp:37-83 | the loop with its fast path appends the specified body and returns true exactly when cleaning changes the text |
| JsonStrings.BodyReadsBack | src/sensor/json_reader.cpp:217-265 | reading a written string gives it with every invalid byte replaced by U+FFFD and stops right after its quote |
| JsonStrings.UnchangedIffUtf8 | src/sensor/json.cpp:37-83 | nothing is replaced if and only if the text is a sequence of encoded scalar values |
| JsonStrings.CleanIsUtf8 | src/sensor/json.cpp:37-83 | a cleaned text is UTF-8: cleaning again changes nothing |
| JsonStrings.ReadsUtf8 | src/sensor/json_reader.cpp:217-265 | every string the reader returns, from any text, is UTF-8 |
| Json.ValueReadsBack | src/sensor/json_reader.cpp:81-158 | the text of any tree, followed by any delimiter, reads as the tree rebuilt under the limits, and the rest is left |
| Json.BuildIs | src/sensor/json_reader.cpp:81-131 | rebuilding succeeds if and only if depth, number of values and distinctness of cleaned keys allow, and gives the cleaned tree |
| Json.RoundTrip | src/sensor/json_reader.cpp:47-55 | for every printable tree and all limits: its text is accepted if and only if it is within the limits and no object has two keys that clean to the same, and is then read as the cleaned tree |
| JsonReader.AcceptedIsSound | src/sensor/json_reader.cpp:47-158 | every accepted document, whoever wrote it, is within all limits, UTF-8 throughout and free of duplicate keys |
| JsonReader.Rewritten | src/sensor/json.cpp:85-170 | an accepted document of integers, written again, reads as the same tree |
| JsonReader.KeysCanCollide | src/sensor/json_reader.cpp:108-111 | distinct keys with different stray bytes clean to the same key, and the written text is refused |
| JsonGrammar.StringLaw | src/sensor/json_reader.cpp:217-265 | the reader takes a string if and only if it is spelt by section 7 of RFC 8259 (the character itself, a short escape, four hex digits in either case, or a surrogate pair), and returns exactly the scalar values spelt |
| JsonGrammar.SpeltIsRead | src/sensor/json_reader.cpp:47-314 | every derivation of the grammar, with any white space, is read as its tree if and only if size, depth, number of values, distinctness of keys and range of numbers allow |
| JsonGrammar.ReadIsSpelt | src/sensor/json_reader.cpp:81-314 | whatever value the reader accepts has a derivation that spells exactly the characters taken and means the tree returned |
| JsonGrammar.ReadingLaw | src/sensor/json_reader.cpp:47-314 | the reader returns a tree for a text if and only if the grammar spells that tree with that text and the reader can hold it |
| JsonGrammar.SpaceIsIgnored | src/sensor/json_reader.cpp:68-73 | texts whose derivations differ only in white space between tokens are both refused or both read as the same tree |
| JsonParsers.JsonParser.String | src/sensor/json_reader.cpp:217-265 | the loop over position gives the text and place that StringLaw characterises |
| JsonParsers.JsonParser.Number | src/sensor/json_reader.cpp:267-314 | the scan gives the specified number and place |
| JsonParsers.JsonParser.Value | src/sensor/json_reader.cpp:81-95 | recursive descent leaves result, position and count as specified |
| JsonParsers.JsonParser.Array | src/sensor/json_reader.cpp:133-158 | the loop over elements leaves result, position and count as specified |
| JsonParsers.JsonParser.Object | src/sensor/json_reader.cpp:97-131 | the loop over members leaves result, position and count as specified |
| JsonParsers.JsonParser.Run | src/sensor/json_reader.cpp:47-55 | the parser object decides as the specification does |
| JsonWriters.JsonWriter.Separate | src/sensor/json.cpp:85-94 | a comma exactly when one is due, and the flags that say so |
| JsonWriters.JsonWriter.Key | src/sensor/json.cpp:124-132 | comma, quoted name and colon; the replacement flag |
| JsonWriters.JsonWriter.String | src/sensor/json.cpp:134-140 | comma and quoted text; the replacement flag |
| JsonWriters.Write | src/sensor/json.cpp:85-170 | the calls for any printable tree leave its text in the output, with the flags of the enclosing container, and set the replacement flag exactly when cleaning changes the tree |
| JsonWriters.WriteAndRead | src/sensor/json_reader.cpp:323-325 | writer object and parser object end to end |
| ProcessTree.DescendantsOf | src/response.cpp:228-244 | exactly the pids below the root, once each, parents first, for every table including cycles |
| TerminateTree.Host.Open | src/response.cpp:128-159 | a handle is good if and only if the system's answer at that moment is the expected start time; a mismatch is told from a missing reference |
| TerminateTree.GatherRound | src/response.cpp:371-396 | one scan: every new process is cleared, verified and stopped or missed, within the bound; it is given up only over the bound or for a process of the tree that is protected; it is called unstable only if the scan showed a new pid |
| TerminateTree.GatherTree | src/response.cpp:369-400 | rescans until a scan shows nothing new; given up only if a scan failed, more pids than the bound were shown, one was protected, or eight scans in a row each showed a pid that none of them had shown before |
| TerminateTree.Preflight | src/response.cpp:324-353 | nothing is signalled; each refusal has its cause in what the system answered; a dry run lists the target and exactly the processes one scan showed below it, once each, parents first, with their start times |
| TerminateTree.Release | src/response.cpp:359-362 | everything held is sent SIGCONT and nothing was killed |
| TerminateTree.Finish | src/response.cpp:402-416 | everything held is sent SIGKILL, the root last; the status is failed exactly when a kill was refused, terminated only when every process was found gone afterwards, signalled only when one was found still there |
| TerminateTree.Terminate | src/response.cpp:323-416 | against every behaviour of the process table: all that was stopped is continued or all of it is killed; never more than the bound are signalled; every signal goes to a process that the system, asked earlier in this response, showed to have the named start time and to be unprotected; a kill covers the tree of the last scan by pid; every other status is explained by what the system answered; and against a table that stays as it is, within the bound and unprotected, the target and every process below it is sent SIGKILL |
| TerminateTree.SteadyIsKilled | src/response.cpp:364-416 | from the explained outcome alone: against a system that stays as it is none of the reasons to give up can arise, so the whole tree was killed |
| HashService.Service.Submit | src/sensor/hash_service.cpp:112-144 | an answer at once or one more waiter, in each case of cache, flight and queue; the descriptor is closed or queued; a new request goes to the end of the queue and a joined one to the end of its waiters, and nothing else changes |
| HashService.Service.Take | src/sensor/hash_service.cpp:190-198 | the worker's first section keeps every request |
| HashService.Service.Finish | src/sensor/hash_service.cpp:199-215 | every waiter of the key gets one result with this outcome, the request leaves the flight table, a final outcome of a new key is cached and no other outcome is |
| HashService.Service.Remember | src/sensor/hash_service.cpp:161-167 | the cache keeps its bound, its order list stays free of duplicates and in step with it; a key that is there changes nothing, and a new one leaves exactly the latest keys up to the bound |
| HashService.Service.Drain | src/sensor/hash_service.cpp:146-149 | the finished results are handed out once |
| HashService.Service.NobodyIsLost | src/sensor/hash_service.cpp:112-215 | in every state with no request left, each subject has as many results as it was told to wait, and each descriptor was closed as often as handed over |
| HashService.OneMoreRequest | src/sensor/hash_service.cpp:139-140 | a new request keeps one request for each key in flight and adds one waiter |
| HashService.AllTold | src/sensor/hash_service.cpp:210-213 | finishing a request moves each of its waiters to the results, once, and every answer belongs to a request of its key |
| EntityGraph.OneLivePerPid | src/sensor/entity_graph.cpp:103-115 | under index agreement at most one live instance has a pid |
| EntityGraph.FiledAgrees | src/sensor/entity_graph.cpp:103-115 | storing any instance keeps the two indexes in agreement and ends only the live instance it displaces |
| EntityGraph.Graph.Store | src/sensor/entity_graph.cpp:103-115 | the slot and both entries of the id index after a store |
| EntityGraph.Graph.LookupOrLoad | src/sensor/entity_graph.cpp:117-139 | the live instance of the slot, or one loaded from procfs and stored; other slots stay |
| EntityGraph.Graph.OnFork | src/sensor/entity_graph.cpp:195-239 | the child's slot holds a live instance under its own identity with its parent's image; agreement is kept |
| EntityGraph.Graph.OnExec | src/sensor/entity_graph.cpp:241-327 | the slot holds a live instance whose start time has the stated priority; a continued instance counts its generation and keeps its parent; agreement is kept |
| EntityGraph.Graph.OnExit | src/sensor/entity_graph.cpp:329-353 | the live instance of the slot ends, and nothing else changes |
| EntityGraph.Graph.OnChange | src/sensor/entity_graph.cpp:355-441 | a change of attributes replaces the instance in both indexes |
| EntityGraph.Graph.Discover | src/sensor/entity_graph.cpp:449-461 | every listed process that could be read is live in its slot as the instance read or as the one kept, one that could not be read leaves its slot as it was, and no other slot changes |
| EntityGraph.Graph.LinkParents | src/sensor/entity_graph.cpp:462-472 | every live instance without a parent gets the live instance of its parent's pid unless that is younger, and nothing else changes |
| EntityGraph.Graph.Reconcile | src/sensor/entity_graph.cpp:443-497 | after a scan every live instance is listed or noted as missing; a listed process that could be read is live in its slot with the start time read, or as the live instance that was there and whose start time agrees or could not be read; an unlisted one ends exactly when its pid was noted by the scan before; agreement is kept; the ended ones told are exactly those, and a slot that is not told as discovered holds the instance it held |
| EntityGraph.Graph.Purge | src/sensor/entity_graph.cpp:499-526 | no live instance is forgotten, the expired are, the id index holds at most the larger of bound and live instances, and what is evicted exited no later than what is kept |
| EntityGraph.TwoScans | src/sensor/entity_graph.cpp:475-496 | a process that two scans in a row do not list has ended |
| EntityGraph.EndedAfterOneScan | src/sensor/entity_graph.cpp:475-496 | one scan is enough when the pid is reused in between, because the pid is what is noted |
| Calendar.WithoutEras | src/sensor/command_channel.cpp:57-64 | the closed form equals the floor form of the leap rule in every year |
| Calendar.NextIsOneMore | src/sensor/command_channel.cpp:57-64 | for every valid date of every year the next day is one more |
| Calendar.ClosedFormCounts | src/sensor/command_channel.cpp:57-64 | after any number of days counted from 1970-01-01 the closed form gives that number |
| Calendar.EveryDateIsCounted | src/sensor/command_channel.cpp:57-64 | every valid date from 1970 on is the one reached after as many days as the closed form says |
| Timestamps.PrintedIsRead | src/sensor/command_channel.cpp:119-165 | every valid timestamp in every spelling of section 5.6 of RFC 3339 within 40 characters is accepted as its counted days in seconds plus the time minus the offset |
| Timestamps.ReadIsPrinted | src/sensor/command_channel.cpp:119-165 | every accepted text is such a spelling, with that value |
| Base64.EncodeText | src/sensor/command_channel.cpp:1049-1063 | the encoder's loop computes the specified encoding |
| Base64.DecodeText | src/sensor/command_auth.cpp:65-103 | the decoder's loop computes the specified decoding |
| Base64.DecodeOfEncode | src/sensor/command_auth.cpp:65-103 | decoding undoes encoding on every non-empty input |
| Base64.EncodeOfDecode | src/sensor/command_auth.cpp:76-101 | every accepted text is the encoding of what it decodes to |
| Base64.ValueIsPlace | src/sensor/command_auth.cpp:67-74 | each character's value is its place in the alphabet of section 4 of RFC 4648, and no other character has one |
| Base64.EncodedIsSpelt | src/sensor/command_channel.cpp:1049-1063 | the text has four characters for every three bytes begun; each four are the 24 bits of their group, six at a time from the highest, in that alphabet, with padding for missing bytes |
| SigningInput.FramedIsInjective | src/sensor/command_auth.cpp:19-26 | length-prefixed fields under fixed names determine all values, whatever bytes they hold |
| SigningInput.FramedUnframes | src/sensor/command_auth.cpp:19-26 | an independent reader of the framing (name, length, bytes, line break) finds all names and values again, whatever bytes the values hold |
| SigningInput.InputReads | src/sensor/command_auth.cpp:44-59 | after its first line the signing input reads as these twelve names in this order with the command's values |
| SigningInput.SameInputSameCommand | src/sensor/command_auth.cpp:44-59 | two commands with the same signing input agree in every signed field and in the target |
| Fim.SameIsNoChange | src/sensor/fim.cpp:72-105 | two present items compare as no change if and only if they agree in all compared attributes |
| Fim.Diff | src/sensor/fim.cpp:107-127 | the merging loop computes the merge |
| Fim.MergeIsPerPath | src/sensor/fim.cpp:107-127 | on sorted listings the merge reports exactly the path by path comparison over the union of paths, once for each path, in path order |
| FimMonitors.SilentIffSame | src/sensor/fim.cpp:107-127 | nothing is reported if and only if both baselines have the same paths and every item is the same in all that is compared |
| FimMonitors.Monitor.Rescan | src/sensor/fim.cpp:286-306 | the reported changes are those between the baseline and what was seen, an unobserved path is never reported removed, and the baseline moves exactly when something is reported |
| FimMonitors.RescanTwice | src/sensor/fim.cpp:286-306 | a second rescan of an unchanged disk reports nothing |
| FimFormat.HexRoundTrip | src/sensor/fim.cpp:21-48 | hexadecimal decoding undoes encoding on every byte string |
| FimFormat.LineParses | src/sensor/fim.cpp:129-141 | the line of a well-formed entry is read as that entry without its facts |
| FimFormat.ReadBaseline | src/sensor/fim.cpp:143-194 | the reader's loop computes the specified parse |
| FimFormat.StoredIsRead | src/sensor/fim.cpp:129-194 | a stored well-formed baseline is accepted if and only if it is within the bound, and reads as itself without the facts |
| FimFormat.StoredIsSilent | src/sensor/fim.cpp:129-194 | a baseline that was stored and read back diffs to nothing against the original |
| FimFormat.CutIsRefused | src/sensor/fim.cpp:143-194 | no proper prefix of a stored baseline is accepted |
| ArtifactUpload.SendSlices | src/sensor/artifact_outbox.cpp:166-175 | at most four consecutive slices of 65536 bytes, each acknowledged under the same digest |
| ArtifactUpload.Resume | src/sensor/artifact_outbox.cpp:108-181 | against every Manager: consecutive slices from the reported offset, and a receipt only after one fixed digest acknowledged every byte; against one that keeps what it gets, four slices further in each call and the receipt exactly at the end |
| ArtifactUpload.FourCalls | src/sensor/artifact_outbox.cpp:108-181 | any content up to 1 MiB is delivered within four calls to a Manager that keeps what it gets |
| ContainerTracker.ToldExactly | src/sensor/container_tracker.cpp:24-79 | a stop is told exactly when a move takes out the last member, which is exactly when the container is no longer tracked; a start exactly when a container seen to start is tracked from now on; nothing else is told |
| ContainerTracker.StoryIsSensible | src/sensor/container_tracker.cpp:24-79 | over every sequence of joins and leaves, starts and stops of a container alternate, and the containers left running are the tracked ones seen to start |
| ContainerTracker.PeakIsGreatest | src/sensor/container_tracker.cpp:53-54 | over every sequence of joins and leaves, the peak of a tracked container is the greatest size it has had since it is tracked, and its first sight is the join that made it tracked |
| ContainerTracker.StopTellsPeak | src/sensor/container_tracker.cpp:66-78 | every stop that is told gives that greatest size, the lifetime since that join if it was observed, and comes from a container of one member |
| ContainerTracker.AlwaysSound | src/sensor/container_tracker.cpp:24-79 | over every sequence of joins and leaves the bounds hold, no tracked container is empty and every followed process is in its container |
| ContainerTracker.JoinKeepsInverse | src/sensor/container_tracker.cpp:24-55 | joining keeps process-to-container and container-to-members inverse if and only if the process belongs nowhere or already here, or is turned away |
| ContainerTracker.ObservingKeepsInverse | src/sensor/container_tracker.cpp:88-109 | whatever the events, the two maps stay inverse |
| ContainerTracker.SeedingKeepsInverse | src/sensor/container_tracker.cpp:81-86 | for every list nothing is told; the maps stay inverse if no process is listed in two containers or in another than its own, and only if, unless a process was turned away |
| ContainerTracker.Tracker.JoinOne | src/sensor/container_tracker.cpp:24-55 | the maps, the count of those turned away and the entries told are exactly those of a join |
| ContainerTracker.Tracker.LeaveOne | src/sensor/container_tracker.cpp:57-79 | the maps and the entries told are exactly those of a leave |
| ContainerTracker.Tracker.Observe | src/sensor/container_tracker.cpp:88-109 | for every sequence of events the tracker makes exactly the joins and leaves they call for, in order, and returns everything these tell |
| ContainerTracker.Tracker.Seed | src/sensor/container_tracker.cpp:81-86 | every process with an identity joins, in order, from any state |
| ContainerTracker.Tracker.Always | src/sensor/container_tracker.cpp:24-109 | in every state of every tracker: the bounds, the alternating story and the true peaks, of the moves made so far |

## Left out

- The write-ahead log, uplink, policy engine, record queue, snapshot differ and record serializer: the log is any sink with contiguous numbers, refusals, disjoint dropped ranges and a delivery cursor.
- Cryptography and hashing: signature verification is an oracle, and the entity id is taken to be one-to-one on pid and start time.
- Transports, netlink, nftables, procfs, fanotify and audit collectors, scanners, configuration, control socket, health text and mains: input and output, or easy branch-by-branch validation.
- The other eBPF programs and the sample decoder: field copying.
- The strict parsing of command envelopes and of poll replies: commands arrive parsed.
- Command channel: metrics, audit records, back-off, collection artifacts and the English detail texts (a parameter); the order in which interrupted and unreported entries are visited is any order; the repeated acceptance of a command that is already reported, which sends no result, is not modelled; a file of 19-digit numbers beyond 64 bits, whose reading overflows in the program, is read mathematically; `lseek` does not fail; interruptions of one write are finitely many; a call of the executor that the process does not survive counts as made; a rename is atomic and durable, a successful sync durable, the clock does not go back.
- Loss accounting: the breakdown by type and the detail text of a report; carried reports are written in the order in which their stages were met.
- Wake-up protocol: a quiet poll lasts its full timeout (the program also counts an interrupted poll as quiet), and the kernel's delivery of a wake-up takes no time; a record's entry into the ring and the test whether the reader has caught up are one step; in the variant with forced wake-ups, which the program does not have, a waking record that the full ring refuses, after it has written the shared timestamp, is excluded.
- JSON: numbers with a fraction or an exponent are kept as spelt and an oracle says whether a double can hold them (the writer never emits them); error messages and `raw`.
- Hash service: stopping, pacing and metrics; the two updates of the worker's second section, which hold one lock, are made in the other order.
- TerminateTree.Terminate: coverage of the last scan is by pid, as the code remembers pids; a process that took over the pid of a member that died during the collection is not told apart.
- Process termination of a single process, exit status decoding, ancestry and the events of the entity graph.
- File integrity: the debounced queue of changed paths and the file system calls around the stored baseline.
- Artifact upload: the validation of the envelope and the serialised requests; replies arrive with their fields read.
