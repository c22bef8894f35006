# VIHS: durable log, response pipeline, transducers and fleet control

VIHS is a real-time avatar service. This project models the parts of it that hold protocols and
proves what they keep over whole runs:

* **The durable log** (`Json`, `JsonDecoder`, `Canonical`, `Chain`, `Store`, `Index`, `Writer`,
  `Recovery`, `EventCount`, `Owner`, `Drafts`, `Durable`, `Shortfalls`): a canonical printer that a
  decoder undoes, a hash chain over it, log objects, the cached index record, the single writer per session with its crash recovery,
  and every interleaving of appends, failed store writes, lost index updates, crashes, record
  loss, rebuilds and wake-ups.
* **Memory** (`Events`, `Render`, `Compact`, `CompactSafety`): the continuity page and the rolling
  summary, and what compaction remembers over whole runs.
* **Delivery** (`AppendBuffer`, `ExactlyOnce`): the pod's retrying buffer composed with the writer's
  duplicate window.
* **One response** (`Ledger`, `Pipeline`, `PipelineSafety`, `PipelineProgress`, `Coverage`,
  `Interrupt`, `Response`): three stages over bounded queues, with barge-in or a crash in any state; what is committed (INV-1),
  deadlock freedom and termination. `Response` is the object the stages mutate, each method proved
  against the step relation of `Pipeline`.
* **Streaming text** (`Chunking`, `Clause`, `Envelope`, `CharMeter`): the clause chunker, the LLM
  envelope unwrapper and the TTS character meter against whole-string specifications.
* **Fleet control** (`Registry`, `Router`, `Scaler`, `Tick`, `RateLimiter`) and **turn taking**
  (`Turn`).

`Chain` proves its results for an abstract digest and shows that blake3 over the canonical bytes
is one: `Chain.ComputeHashSound`. The hash is any function `h`; tamper evidence is stated under
`CollisionFree(h)` (injective, never the genesis marker).

Assumptions of the durable log, all explicit in `Recovery.Lawful` and the step types: bodies carry a u64
`turn_id` that does not fall (the writer does not check it, `fsck` does), a failed store write
writes nothing, and a waking writer can find the tip: the log is empty, or the last line and the
record are read and agree, or the replay's reads and its heal succeed. Compaction is one step.

## Where the code falls short of its text

Each is proved: an exact condition in both directions, with an input or a run that fails it where the
condition does not name one itself, or a failure on every input of a kind.

* The writer never looks at `turn_id`: an append keeps the chain acceptable exactly when the body
  has a u64 turn id not below the last one (`Recovery.AppendKeepsChainExactly`), and a turn that goes
  back is committed all the same (`Shortfalls.EarlierTurnBreaksLog`). A summary carrying a stale
  `last_turn` is such a body.
* A waking writer whose replay meets any error falls back to genesis. Its tip is right exactly when the log is empty,
  or the last line and the record are both read and agree, or the replay's reads and its heal succeed
  (`Recovery.RecoverExact`); otherwise its next commit breaks the chain
  (`Recovery.GenesisForkBreaks`). So an unreachable store or a failed heal forks a healthy session.
* The owner binding does not survive every loss of the record: whatever writes the record first after
  the loss, other than a replay or a rebuild, leaves one without owner that later wake-ups trust
  (`Owner.LiveWipeLosesOwner`, `Owner.EpochLosesOwner`). A run keeps the binding exactly when that did
  not happen since the last wipe, rebuild or owner-restoring wake-up (`Owner.RunBindsExactly`). An append
  with a user's or an administrator's token stamps the owner back, but sets the record's turn to 0 while
  its tip stays trusted (`Owner.StampResetsTurn`).
* A retry is recognised, and the log free of repeats, exactly when its event was committed since the
  writer woke and fewer than 64 others followed (`ExactlyOnce.RetryRecognisedExactly`,
  `ExactlyOnce.RetryStoredOnceExactly`); a crash before the retry makes the log hold the event twice
  (`Shortfalls.RetryAfterCrashLogsTwice`).
* `event_count` can lag for good after a lost index update of a live writer
  (`EventCount.CountSafeIsExact`), and restarts at 1 after the record is lost under one
  (`EventCount.WipeRestartsCount`); over a run it is right exactly when every commit since it was last
  written anew counted on (`EventCount.RunCountsExactly`).
* Compaction set off by the token budget moves the start of the covered range without its end; the
  next one then skips turns, which are in no summary and no longer in the tail. Exactly the
  compactions that start no further than the old end, or do not move the end, remember
  (`CompactSafety.CarefulIsExact`); a single long first turn is enough to reach it
  (`CompactSafety.LongFirstTurnIsForgotten`).
* `render_memory` with a tail of 0 prints what a tail of 1 prints: the last thing said past the summary
  is always there (`Render.TailZeroIsOne`). The service's configuration refuses a tail below 4, so only
  other callers can meet this.
* The stage-crash path reads the playback monitor after cancelling it, so it never commits a partial
  chunk. It commits what barge-in would exactly when nothing is being pushed or no character of it was
  heard (`Interrupt.CrashFallsShortBy`); a whole text can be heard and lost
  (`Interrupt.CrashLosesHeardText`).
* The chunker's clauses depend on the cuts for some texts of the maximal length and more; exactly
  which is a condition on the text alone (`Clause.CutsDoNotMatterExactly`, witness
  `Clause.CutsMatterAtMax`).
* An empty first delta makes the unwrapper pass an envelope through raw, which is wrong exactly when
  there is one (`Envelope.Unwrap`, `Envelope.RawIsRightExactly`). The providers of the repository drop
  empty content before it gets there, so this takes another one.
* The TTS meter lands on the clause's length exactly when some sentence takes all that is left
  (`CharMeter.CoveredExactly`); else the end of the clause stays uncovered, and the committed text is the
  input only up to that gap (`Coverage.CommitsInputUpToGap`).
* The scaler's floor counts Draining pods although its text says Ready and Booting
  (`Scaler.ServingFloorExactly`): one idle and one draining pod over a floor of one lose the idle one
  (`Scaler.ServingFloorLost`).
* A pod that reports its fill overwrites the registry's count, which stays right exactly when the
  report is (`Router.PingCountsExactly`).
* In the composed tick stale pods are dead before the policy sees them, so no pod is ever
  replaced and dead rows stay (`Tick.TickNeverReplaces`, `Tick.TickRemovesOnlyIdle`); a pod stuck in
  Booting stops every deployment (`Scaler.BootingBlocksDeploys`).

## Model

| member | source | states |
|---|---|---|
| `JsonDecoder.RoundTrip` | crates/vihs-core/src/chain.rs:34-61 | decoding the printed text of any value, followed by any delimiter, gives the value and the rest back |
| `JsonDecoder.StringRoundTrip` | crates/vihs-core/src/chain.rs:46 | string escaping (section 7 of RFC 8259) is undone by the decoder for every string |
| `JsonDecoder.EncodeInjective` | crates/vihs-core/src/chain.rs:34-61 | different values print differently |
| `Canonical.CanonMeaning` | crates/vihs-core/src/chain.rs:35-55 | printing fails exactly when a float is reached through object nesting alone; otherwise it is the key-sorted text |
| `Canonical.CanonicalDecodes` | crates/vihs-core/src/chain.rs:34-61 | the decoder recovers the event without its top-level hash from the canonical bytes |
| `Canonical.CanonicalUnambiguous` | crates/vihs-core/src/chain.rs:31-61 | equal bytes mean equal events but for hash |
| `Drafts.InsertionOrderIrrelevant` | crates/vihs-core/src/chain.rs:31-33 | the order in which members were inserted, at any depth, never shows in the bytes |
| `Canonical.SortKeys` | crates/vihs-core/src/chain.rs:40-41 | the sorting loop ends with exactly the keys in strictly increasing order |
| `Canonical.WriteCanon` | crates/vihs-core/src/chain.rs:35-55 | the recursive writer pushes exactly the canonical text, or stops with the float error |
| `Canonical.ComputeCanonicalBytes` | crates/vihs-core/src/chain.rs:34-61 | strips hash, refuses non-objects, and writes the canonical bytes |
| `Chain.ComputeHashSound` | crates/vihs-core/src/chain.rs:63-69 | hashing canonical bytes ignores the hash member; with a collision-free hash equal hashes mean equal events and genesis is never reached |
| `Chain.Fsck` | crates/vihs-core/src/chain.rs:92-121 | the loop returns the first fault, or the count and tip of a log without one |
| `Chain.AcceptedMeaning` | crates/vihs-core/src/chain.rs:89-121 | fsck accepts exactly the logs whose every event links to its predecessor, recomputes and does not go back in turns |
| `Chain.LastTurnIsGreatest` | crates/vihs-core/src/chain.rs:110-116 | in an accepted log every event has a u64 turn id, none above the last one |
| `Chain.SealFields` | crates/vihs-core/src/chain.rs:71-87 | sealing sets prev_hash and hash whatever the caller put there and leaves every other field |
| `Chain.SealExtends` | crates/vihs-core/src/chain.rs:71-87 | a sealed body extends an accepted log to an accepted one exactly when its turn id is a u64 that does not fall |
| `Chain.AcceptedPrefix` | crates/vihs-core/src/chain.rs:92-121 | every prefix of an accepted log is accepted |
| `Chain.TipFixesLog` | crates/vihs-core/src/chain.rs:92-121 | two accepted logs with the same tip are the same log, back to genesis |
| `Chain.TipsDistinct` | crates/vihs-core/src/chain.rs:92-121 | no tip repeats along an accepted log |
| `Store.ObjectStore.AppendLine` | crates/memoryd/src/store.rs:89-102 | a successful append adds the line after the greatest sequence number and returns it; a failed one writes nothing |
| `Store.ObjectStore.MaxSeq` | crates/memoryd/src/store.rs:308-340 | the listing loop finds the greatest sequence number, or none |
| `Store.ObjectStore.ReadLogAfter` | crates/memoryd/src/store.rs:138-170 | reads exactly the lines after a sequence number, in order |
| `Store.ObjectStore.ReadLog` | crates/memoryd/src/store.rs:104-136 | reads the whole log as lines |
| `Store.LogTextRoundTrip` | crates/memoryd/src/writer.rs:107-112 | splitting and parsing the stored bytes recovers every event, a float being its printed text: no encoded event contains a line feed |
| `Index.SessionIndex.Advance` | crates/memoryd/src/index.rs:157-182 | the fields, then the counter, each of which may be lost |
| `Index.SessionIndex.Heal` | crates/memoryd/src/index.rs:188-222 | overwrites tip, turn, count and sequence, and the owner only when one is given; it may be lost, or written and yet reported as failed |
| `Writer.SessionWriter.constructor` | crates/memoryd/src/writer.rs:143-183 | a waking writer holds what recovery finds under each read that fails, with an empty window, and heals the record as far as the heal gets |
| `Writer.SessionWriter.ReplayTip` | crates/memoryd/src/writer.rs:102-136 | tip and last turn move only if the log checks and the heal reports success; the record is mended as far as the heal gets |
| `Writer.SessionWriter.LastLineHash` | crates/memoryd/src/writer.rs:166-171 | the hash member of the last logged line, if any |
| `Writer.SessionWriter.HandleAppend` | crates/memoryd/src/writer.rs:185-233 | one message: reply, log, record, tip, last turn and window all as specified, store first, index second |
| `Writer.SessionWriter.Remember` | crates/memoryd/src/writer.rs:222-225 | the window keeps the latest 64 content hashes in order |
| `Writer.GreatestTurn` | crates/memoryd/src/writer.rs:118-122 | the fold finds the greatest turn id of the log |
| `Recovery.TrustIsReplay` | crates/memoryd/src/writer.rs:149-156 | a record whose tip is the last logged hash holds the turn and sequence a full replay computes |
| `Recovery.TrustedIsWhole` | crates/memoryd/src/writer.rs:137-156 | such a record describes the whole log, not a prefix |
| `Recovery.RecoverExact` | crates/memoryd/src/writer.rs:143-163 | recovery finds the last logged hash if and only if the log is empty, or the last line and the record are read and agree, or the replay's reads and its heal succeed; otherwise it ends at genesis with turn 0 |
| `Recovery.StepSafe` | crates/memoryd/src/writer.rs:102-233 | every lawful step keeps the log accepted, the record about some prefix, the live writer at the tip |
| `Recovery.RunSafe` | crates/memoryd/src/writer.rs:102-233 | the same over every run of failures, crashes, wipes, rebuilds and wake-ups |
| `Recovery.CrashThenWake` | crates/memoryd/src/writer.rs:133-163 | after a crash in any reachable state a writer that can find the tip has the old one's tip and last turn |
| `Recovery.RunPayload` | crates/memoryd/src/writer.rs:203-225 | the log holds exactly the stored contents in order: no crash duplicates or drops a line |
| `Recovery.ReplyIsTrue` | crates/memoryd/src/writer.rs:185-233 | Committed means this content was added last, Duplicate that it is in the log, anything else that the log is unchanged |
| `Recovery.AppendKeepsChainExactly` | crates/memoryd/src/writer.rs:185-233 | an append keeps the log accepted if and only if the turn id is a u64 not below the last |
| `Shortfalls.EarlierTurnBreaksLog` | crates/memoryd/src/writer.rs:203-233 | under every collision-free hash: a wake-up and two commits whose turns go back leave a log that fsck rejects |
| `Recovery.GenesisForkBreaks` | crates/memoryd/src/writer.rs:158-162 | a writer that woke at genesis over a non-empty log breaks the chain with its first commit |
| `Owner.WakeOwnerExactly` | crates/memoryd/src/writer.rs:124-134 | after a wake-up that finds the tip the record names the log's owner if and only if it was absent, or not seen by the replay, or already named it |
| `Owner.StepBindsExactly` | crates/memoryd/src/index.rs:157-240 | after any step the record is absent or names the log's owner exactly when the step puts it back, or it did before and the step makes no bare record |
| `Owner.RunBindsExactly` | crates/memoryd/src/index.rs:184-187 | over every lawful run of appends that stamp nothing, that holds exactly when no bare record was made since the last wipe, rebuild or owner-restoring wake-up |
| `Owner.LiveWipeLosesOwner` | crates/memoryd/src/index.rs:157-182 | record loss under a live writer, one commit, a crash and a faultless wake-up leave the record without owner, in every state |
| `Owner.EpochLosesOwner` | crates/memoryd/src/index.rs:225-240 | so does an epoch written between the loss and the wake-up |
| `Owner.SeenRecordKeepsOwner` | crates/memoryd/src/writer.rs:124-134 | a wake-up that sees a record never changes whose it is |
| `Owner.StampResetsTurn` | crates/memoryd/src/api.rs:109-123 | a stamp binds the record exactly when the caller is the log's owner, keeps its tip trusted and sets its turn to 0, so a faultless wake-up finds the right last turn only if that was 0 |
| `EventCount.RunCounts` | crates/memoryd/src/index.rs:157-182 | event_count equals the log's length whenever the record is current, over every run in which no live writer lost an update and none had its record wiped |
| `EventCount.StepCountsExactly` | crates/memoryd/src/index.rs:157-222 | after any step the counter is right exactly when the step counts anew, or commits with the counter at the length and completes, or leaves it alone and it was right |
| `EventCount.RunCountsExactly` | crates/memoryd/src/index.rs:157-182 | over every lawful run the counter is right exactly when every commit since it was last written anew counted on |
| `EventCount.CountSafeIsExact` | crates/memoryd/src/index.rs:157-182 | for one append the condition is exact: a lost update or counter makes the next count wrong |
| `EventCount.WipeRestartsCount` | crates/memoryd/src/index.rs:157-182 | for a wipe under a live writer too: the next full commit leaves a count of 1, right exactly when the log was empty |
| `Durable.EveryRunIsSafe` | crates/memoryd/src/writer.rs:102-233 | from an empty log, under any collision-free hash, every lawful run leaves an accepted log of exactly what was stored, and a writer at its tip |
| `Durable.SameTipSameHistory` | crates/vihs-core/src/chain.rs:89-121 | two such runs that end at the same tip stored the same contents in the same order |
| `Durable.CollisionFreeExists` | crates/vihs-core/src/chain.rs:63-69 | the idealisation of the hash can be met |
| `AppendBuffer.AppendBuffer.Enqueue` | pod/vihs_pod/append_buffer.py:55-67 | accepts at the back while the queue, the event in flight not counted, is below the bound; otherwise refuses and marks degraded |
| `AppendBuffer.AppendBuffer.Depth` | pod/vihs_pod/append_buffer.py:70-75 | counts the queued events and the one in flight |
| `AppendBuffer.AppendBuffer.PickUp` | pod/vihs_pod/append_buffer.py:128-137 | takes the oldest queued event in flight |
| `AppendBuffer.AppendBuffer.Retry` | pod/vihs_pod/append_buffer.py:137-166 | the retry loop keeps its event until the first acknowledgement and then only drops that one |
| `ExactlyOnce.RetryRecognisedExactly` | crates/memoryd/src/writer.rs:197-200 | a logged event sent again is answered Duplicate if and only if it was committed since the writer woke and fewer than 64 others followed |
| `ExactlyOnce.RetryStoredOnceExactly` | crates/memoryd/src/writer.rs:197-225 | the log stays free of repeated contents through a retry under the same condition and no other |
| `Shortfalls.RetryAfterCrashLogsTwice` | crates/memoryd/src/writer.rs:183-225 | under every collision-free hash: commit, crash, wake-up and retry log one event twice |
| `ExactlyOnce.StepKeeps` | pod/vihs_pod/append_buffer.py:128-166 | every step keeps accepted = delivered, in flight, queued, and the log's own part = delivered plus at most the in-flight event |
| `ExactlyOnce.ExactlyOnceInOrder` | pod/vihs_pod/append_buffer.py:55-166 | over every run with lost requests, lost replies and failed writes each event of the conversation is logged once, in order, with turn ids that never fall |
| `Chunking.CutMeaning` | pod/vihs_pod/pipeline/clause.py:20-32 | one feed's clauses and the rest join to the buffer, no clause is empty or longer than the maximum, nothing more can be cut from the rest |
| `Chunking.ClausesRefineInput` | pod/vihs_pod/pipeline/clause.py:20-59 | all clauses of a stream join to exactly its input, none empty, each within the maximum |
| `Chunking.CutsDoNotMatter` | pod/vihs_pod/pipeline/clause.py:20-59 | any two ways of cutting an input shorter than the maximum give the same clauses |
| `Chunking.CutsDoNotMatterExactly` | pod/vihs_pod/pipeline/clause.py:20-59 | for any boundary search: every two ways of cutting an input give the same clauses if and only if the input shows no boundary before each forced cut |
| `Clause.FindsGood` | pod/vihs_pod/pipeline/clause.py:34-54 | the boundary search always cuts inside the buffer, within the maximum, and never waits at the maximum |
| `Clause.FindsStable` | pod/vihs_pod/pipeline/clause.py:34-54 | a boundary once found stays when more text arrives |
| `Clause.ClauseChunker.FindBoundary` | pod/vihs_pod/pipeline/clause.py:34-54 | the scanning loop finds the first boundary that the abbreviation, decimal and ellipsis rules let stand |
| `Clause.ClauseChunker.Feed` | pod/vihs_pod/pipeline/clause.py:20-32 | the loop ends and leaves clauses and buffer as specified |
| `Clause.ClauseChunker.Flush` | pod/vihs_pod/pipeline/clause.py:56-59 | returns what is buffered, if anything, and empties the buffer |
| `Clause.StreamRefinesInput` | pod/vihs_pod/pipeline/clause.py:12-59 | the chunker with any bounds refines its input |
| `Clause.CutsDoNotMatterBelowMax` | pod/vihs_pod/pipeline/clause.py:12-59 | independence of cuts below the maximum for the real boundary rules |
| `Clause.CutsDoNotMatterExactly` | pod/vihs_pod/pipeline/clause.py:12-59 | the same equivalence for the real boundary rules, all bounds and all inputs |
| `Clause.CutsMatterAtMax` | pod/vihs_pod/pipeline/clause.py:34-54 | for every maximum of at least 4 two cuts of one text of exactly that length give different clauses |
| `Envelope.Unwrap` | pod/vihs_pod/pipeline/llm.py:147-222 | for every stream that starts with a brace, however cut, the yields join to the reply without its envelope, or to the raw reply when the first delta is empty |
| `Envelope.UnwrapBody` | pod/vihs_pod/pipeline/llm.py:185-222 | inside the envelope the held-back characters never lose or hide a close cut in two |
| `Envelope.MatchStays` | pod/vihs_pod/pipeline/llm.py:48-69 | a matched head stays the same head whatever follows |
| `Envelope.NoStays` | pod/vihs_pod/pipeline/llm.py:48-69 | a probe that has diverged never becomes an envelope |
| `Envelope.PrefixHasNoHead` | pod/vihs_pod/pipeline/llm.py:48-69 | while the probe is only a prefix there is no head to drop |
| `Envelope.UnwrapUndoesWrap` | pod/vihs_pod/pipeline/llm.py:21-37 | unwrapping a text wrapped under any type gives it back, followed by whatever the model adds |
| `Envelope.RawIsRightExactly` | pod/vihs_pod/pipeline/llm.py:129-138 | passing a reply through unchanged is right if and only if it has no envelope head |
| `CharMeter.MeterBuffer` | pod/vihs_pod/pipeline/tts.py:392-416 | over one buffer chars stay in proportion to bytes up to the closing chunk, and exactly the bytes its milliseconds allow are sent; if the milliseconds run out first, durations add up to the buffer's and the closing chunk uses up the clause |
| `CharMeter.MeterSentence` | pod/vihs_pod/pipeline/tts.py:366-416 | after every chunk the characters covered are exactly those due for its bytes, the chunk that closes the clause excepted; a last sentence heard out takes all the clause has left |
| `CharMeter.MeterPause` | pod/vihs_pod/pipeline/tts.py:352-364 | a pause covers no characters and exactly its bytes of silence |
| `CharMeter.Meter` | pod/vihs_pod/pipeline/tts.py:345-416 | a clause is never over-covered: what is covered is the clause less what the items leave |
| `CharMeter.CoveredExactly` | pod/vihs_pod/pipeline/tts.py:373-416 | a clause is covered exactly if and only if it is empty or some sentence took all that was left: the last one heard out, or one no shorter whose bytes were all sent |
| `CharMeter.AudibleEndCovers` | pod/vihs_pod/pipeline/tts.py:385-416 | nothing is left once the last sentence's last buffer lasts a millisecond, if a chunk is a whole byte or more before rounding up |
| `CharMeter.MeterMeetsContract` | pod/vihs_pod/pipeline/flow.py:130-143 | the characters the meter gives out are the total that the coverage contract of the response pipeline speaks of |
| `CharMeter.MeteredTtsFits` | pod/vihs_pod/pipeline/flow.py:130-143 | a TTS whose chunks the meter gave out never covers more than a clause, and covers every clause exactly when the meter does |
| `Interrupt.OneChunkCovers` | pod/vihs_pod/mocks/stages.py:90-121 | the mock TTS covers every clause exactly |
| `Ledger.CommittedText` | pod/vihs_pod/pipeline/ledger.py:35-58 | the loop concatenates the slices of the played spans and the cut of the partial |
| `Ledger.CutIsProportional` | pod/vihs_pod/pipeline/ledger.py:29-33 | the cut never exceeds the chunk, grows with the time played, and is the chunk when played out |
| `PipelineSafety.StepKeeps` | pod/vihs_pod/pipeline/flow.py:100-166 | every step of every stage conserves the text: played and queued text is what the chunks cover of the ledger, and ledger and unnumbered text the input, in order |
| `PipelineSafety.RunKeeps` | pod/vihs_pod/pipeline/flow.py:100-166 | the same over every interleaving |
| `PipelineSafety.CommitsWhatIsCovered` | pod/vihs_pod/pipeline/flow.py:192-204 | INV-1 for any TTS that covers no more than the clauses: in every reachable state what barge-in and a crash commit are prefixes of the covered parts of the clauses in order |
| `PipelineSafety.CommitsWhatWasHeard` | pod/vihs_pod/pipeline/flow.py:192-204 | INV-1: in every reachable state barge-in commits the played text and a prefix of the chunk in flight, a crash exactly the played text, and both are prefixes of the clauses and of the input |
| `Coverage.CoveredTextExactly` | pod/vihs_pod/pipeline/ledger.py:35-58 | a prefix of the covered text is a prefix of the clauses as long as it does not go past the first clause left uncovered, and exactly as long when the skipped text shows |
| `Coverage.CommitsInputUpToGap` | pod/vihs_pod/pipeline/flow.py:192-204 | the same of what barge-in commits and the input, in every reachable state |
| `PipelineSafety.SpansSpellPlayed` | pod/vihs_pod/mocks/stages.py:136-157 | the spans the mux reports spell exactly the captions of the chunks pushed in full |
| `PipelineSafety.PartialIsPrefix` | pod/vihs_pod/conversation.py:84-90 | the partial commits a prefix of the caption of the chunk on the wire |
| `Interrupt.AbortSettles` | pod/vihs_pod/pipeline/abort_bus.py:36-54 | after an abort in any reachable state no run continues, and what was committed is a prefix of the input |
| `Interrupt.CrashFallsShortBy` | pod/vihs_pod/conversation.py:323-326 | in every reachable state barge-in commits exactly the heard characters of the chunk on the wire more than a crash; they agree if and only if nothing is being pushed or none of it was heard |
| `Interrupt.CrashLosesHeardText` | pod/vihs_pod/pipeline/flow.py:172-182 | for every text the chunker keeps whole there is a run after which barge-in commits all of it and a crash nothing |
| `PipelineProgress.StepOrdered` | pod/vihs_pod/pipeline/flow.py:97-166 | the queues stay bounded and the end marker last in each of them |
| `PipelineProgress.SomeStepEnabled` | pod/vihs_pod/pipeline/flow.py:97-189 | no deadlock: until the face is done some stage can step |
| `PipelineProgress.StepUsesOne` | pod/vihs_pod/pipeline/flow.py:97-189 | every step uses exactly one unit of the work left |
| `PipelineProgress.EveryScheduleTerminates` | pod/vihs_pod/pipeline/flow.py:97-189 | every schedule takes at most the same number of steps, is finished exactly then, and is never stuck before |
| `PipelineProgress.FinishedCommitsAll` | pod/vihs_pod/pipeline/flow.py:184-189 | a response that finishes commits exactly the text fed to the chunker, and its ledger is the chunker's clause list |
| `Response.Response.BrainMoves` | pod/vihs_pod/pipeline/flow.py:100-123 | the brain takes its one enabled step in place, or none |
| `Response.Response.VoiceMoves` | pod/vihs_pod/pipeline/flow.py:125-144 | the voice takes its one enabled step in place, or none |
| `Response.Response.FaceMoves` | pod/vihs_pod/pipeline/flow.py:146-166 | the face takes its one enabled step in place, or none; a chunk is current only while it is pushed |
| `Response.Response.BargeIn` | pod/vihs_pod/conversation.py:344-363 | reads the partial, bumps the generation, cancels, and commits the text INV-1 speaks of |
| `Response.Response.Crash` | pod/vihs_pod/pipeline/flow.py:172-182 | cancels before the partial is read, so it commits the played text alone |
| `Response.Response.RunResponse` | pod/vihs_pod/pipeline/flow.py:78-189 | an uninterrupted response ends and returns exactly its input |
| `Response.StagesAreSequential` | pod/vihs_pod/pipeline/flow.py:100-166 | each stage has at most one enabled step |
| `Render.SeenTurns` | crates/vihs-core/src/render.rs:118-127 | walking back from the end collects, each once, exactly the turns followed by fewer than the tail's number of distinct turns |
| `Render.RenderMemory` | crates/vihs-core/src/render.rs:72-151 | the loops print exactly the specified page |
| `Render.QuoteSummary` | crates/vihs-core/src/render.rs:95-110 | the summary block quotes every line |
| `Render.RecentMeaning` | crates/vihs-core/src/render.rs:112-132 | the tail is, in log order, exactly the utterances past the summary whose turn is among the last tail distinct turns |
| `Render.SupersededLeavesNoTrace` | crates/vihs-core/src/render.rs:70-83 | taking a superseded summary out of a one-session log renders the same bytes |
| `Render.NothingCutOff` | crates/vihs-core/src/render.rs:118-132 | with few enough turns past the summary nothing said is cut off |
| `Render.TailZeroIsOne` | crates/vihs-core/src/render.rs:118-127 | a tail of 0 renders the same page as a tail of 1, with the last utterance past the summary on it |
| `Compact.Roll` | crates/memoryd/src/compact.rs:31-46 | the loop builds the prior text and one bullet per event, trimmed at the end |
| `Compact.Compactor.MaybeCompact` | crates/memoryd/src/compact.rs:101-170 | the whole new state after each of the writer's answers and each error that can follow it; NotNeeded exactly when nothing triggers, Done exactly when all of it succeeds |
| `Compact.Compactor.Due` | crates/memoryd/src/compact.rs:111-121 | live turns beyond twice the tail, or a page beyond the token budget |
| `Compact.Compactor.Summarise` | crates/memoryd/src/compact.rs:123-149 | the summary event over the range after the prior start |
| `CompactSafety.RolledTells` | crates/memoryd/src/compact.rs:31-46 | every event rolled in has its text, up to trailing white space, in the summary |
| `CompactSafety.RolledKeeps` | crates/memoryd/src/compact.rs:31-46 | what the prior summary told the new one tells |
| `CompactSafety.CarefulRemembers` | crates/memoryd/src/compact.rs:107-149 | a compaction that starts no further than the old end remembers all it claims to cover |
| `CompactSafety.LiveTurnsAreCareful` | crates/memoryd/src/compact.rs:111-115 | compactions set off by live turns always are of that kind |
| `CompactSafety.CompactionForgetsNothing` | crates/memoryd/src/compact.rs:101-170 | over every run of such compactions each event of turn 1 or later is in the newest summary or past it and, if spoken, in the printed tail |
| `CompactSafety.CarefulForgetsNothing` | crates/memoryd/src/compact.rs:101-170 | the same for any trigger while every compaction starts no further than the old end |
| `CompactSafety.CarefulIsExact` | crates/memoryd/src/compact.rs:123-149 | for all covers, tails and last turns: remembering is guaranteed if and only if the start is no further than the old end or the end does not move |
| `CompactSafety.LongFirstTurnIsForgotten` | crates/memoryd/src/compact.rs:115-149 | for every configuration a long enough first utterance is forgotten by two compactions |
| `Registry.PodRegistry.Register` | crates/orchestrator/src/registry.rs:72-94 | a fresh Booting row in both maps |
| `Registry.PodRegistry.Ping` | crates/orchestrator/src/registry.rs:115-124 | fill is clamped to the cap, in both maps |
| `Registry.PodRegistry.Assign` | crates/orchestrator/src/registry.rs:126-135 | one more session up to the cap and no cooldown, in both maps |
| `Registry.PodRegistry.Release` | crates/orchestrator/src/registry.rs:137-145 | one session fewer, not below zero, in both maps |
| `Registry.PodRegistry.StartCooldown` | crates/orchestrator/src/registry.rs:158-168 | only Ready, empty pods start to cool, in both maps |
| `Registry.PodRegistry.Remove` | crates/orchestrator/src/registry.rs:180-184 | the row leaves both maps |
| `Registry.SnapshotIsTheRows` | crates/orchestrator/src/registry.rs:190-194 | a snapshot lists every row exactly once |
| `Registry.SnapshotIsById` | crates/orchestrator/src/registry.rs:190-194 | a snapshot is in strictly increasing order of ids |
| `Router.PickIsLeast` | crates/orchestrator/src/router.rs:24-39 | pick returns the least (fill, id) of the Ready, under-cap, channel-live pods, and nothing exactly when there is none |
| `Router.PickIsTheLeast` | crates/orchestrator/src/router.rs:24-39 | a pod that comes before every eligible one is the one picked |
| `Router.PlaceCounts` | crates/orchestrator/src/router.rs:46-76 | pick then assign never meets the clamp: fill rises by one |
| `Router.FillIsExact` | crates/orchestrator/src/registry.rs:126-145 | over every run of placements, ends, truthful pings and other operations fill is exactly the sessions running since the pod registered, and within the cap |
| `Router.PingCountsExactly` | crates/orchestrator/src/registry.rs:115-124 | a ping keeps that count if and only if what it reports, clamped, is what runs there |
| `Router.PlaceKeepsBalance` | crates/orchestrator/src/router.rs:24-39 | among pods of one cap placement keeps fills within one of each other |
| `Scaler.Decide` | crates/orchestrator/src/scaler.rs:55-132 | the loops compute the specified decision |
| `Scaler.OneKind` | crates/orchestrator/src/scaler.rs:55-132 | a decision only replaces, or deploys once and only with nothing booting, or only scales down |
| `Scaler.DeploysExactly` | crates/orchestrator/src/scaler.rs:73-105 | with no stale pod a deployment happens if and only if the floor, the fill or the queue calls for one and nothing boots; it fills the floor, adds one, or holds the queue with no pod to spare |
| `Scaler.CooldownsExactly` | crates/orchestrator/src/scaler.rs:107-126 | cooldowns start for exactly the Ready, empty pods without one, and are cancelled for exactly those that serve again |
| `Scaler.ReplacesTheStale` | crates/orchestrator/src/scaler.rs:58-71 | rule 1 replaces exactly the pods whose pings are stale |
| `Scaler.TerminatesDownToFloor` | crates/orchestrator/src/scaler.rs:107-119 | scaling down terminates exactly as many expired pods as the floor leaves room for |
| `Scaler.TerminatesOnlyIdle` | crates/orchestrator/src/scaler.rs:107-119 | only Ready, empty, expired pods are terminated |
| `Scaler.FloorHolds` | crates/orchestrator/src/scaler.rs:107-119 | every decision leaves at least the smaller of the live pods and the floor |
| `Scaler.ServingFloorExactly` | crates/orchestrator/src/scaler.rs:47-54 | the floor for Ready and Booting pods holds if and only if nothing drains, the fleet is no larger than the floor, or no more pods expired than serve beyond it |
| `Scaler.ServingFloorLost` | crates/orchestrator/src/scaler.rs:107-119 | a fleet of one idle expired pod and one draining pod over a floor of one terminates the only pod that serves |
| `Scaler.BootingBlocksDeploys` | crates/orchestrator/src/scaler.rs:73-105 | while a pod boots nothing is deployed |
| `Tick.RunTick` | crates/orchestrator/src/main.rs:49-139 | one tick in place: mark, decide, carry out, whatever the provider refuses |
| `Tick.MarkStale` | crates/orchestrator/src/main.rs:55-63 | exactly the stale rows become Dead |
| `Tick.Execute` | crates/orchestrator/src/main.rs:81-136 | the actions are carried out in order against a provider that may fail |
| `Tick.TickNeverReplaces` | crates/orchestrator/src/main.rs:55-63 | in the composed tick rule 1 never fires |
| `Tick.TickKeepsFloor` | crates/orchestrator/src/main.rs:49-139 | a tick leaves at least the smaller of the live rows and the floor |
| `Tick.TickRemovesOnlyIdle` | crates/orchestrator/src/main.rs:112-118 | every pod that is not Ready, empty and expired keeps its row, phase and sessions; dead rows stay |
| `Tick.OneWave` | crates/orchestrator/src/main.rs:84-105 | while a pod boots a tick adds no row |
| `RateLimiter.Limiter.CheckAt` | crates/orchestrator/src/ratelimit.rs:64-90 | one call's answer and the whole new table |
| `RateLimiter.KeysAreIndependent` | crates/orchestrator/src/ratelimit.rs:47-53 | a key's calls are answered as if it were alone |
| `RateLimiter.RefusedUsesNothing` | crates/orchestrator/src/ratelimit.rs:81-87 | a refused call changes nothing |
| `RateLimiter.FixedWindowBound` | crates/orchestrator/src/ratelimit.rs:64-90 | over every run any half-open interval of one window's length holds at most twice the limit less one accepted calls of a key |
| `RateLimiter.BoundIsReached` | crates/orchestrator/src/ratelimit.rs:64-90 | for every class a run reaches that bound |
| `RateLimiter.RefusalIsDue` | crates/orchestrator/src/ratelimit.rs:81-87 | over every run with a clock that never goes back a refusal follows a full limit of accepted calls within the window's length |
| `RateLimiter.EachWindowWithinLimit` | crates/orchestrator/src/ratelimit.rs:70-89 | at any moment of any such run the key's window holds at most the limit of accepted calls, those still to come included |
| `Turn.TurnFsm.OnVad` | pod/vihs_pod/turn.py:50-78 | one frame in place: actions, state, deadline and counted voice |
| `Turn.TurnFsm.ForceReset` | pod/vihs_pod/turn.py:80-84 | back to idle with no deadline and no counted voice |
| `Turn.DeadlineExactlyPending` | pod/vihs_pod/turn.py:50-84 | on every trace a deadline exists exactly while an endpoint is pending |
| `Turn.EndpointExactly` | pod/vihs_pod/turn.py:55-67 | the endpoint fires exactly at the first silent frame at or past the deadline of a silence that followed speech and was never broken |
| `Turn.AbortExactly` | pod/vihs_pod/turn.py:69-77 | barge-in fires exactly where the unbroken voiced run while responding first reaches the limit |
| `Turn.OneResponsePerTurn` | pod/vihs_pod/turn.py:50-84 | between two endpoints there is a barge-in or a reset |

## Left out

- UTF-8: strings are sequences of characters, so byte lengths, byte slicing and encoding are not modelled.
- Floats: a JSON float carries its printed text; elsewhere seconds, ratios and byte fractions are reals, so rounding is not modelled.
- Store.LogTextRoundTrip: serde_json without `float_roundtrip` may read back a float inside an array as a different number, whose event then fails its hash; here a float reads back as the text it was printed as.
- Several sessions: each model holds one session's log, record, writer and conversation.
- Recovery.Lawful: assumes a waking writer can find the tip and turn ids do not fall; what happens otherwise is `Recovery.RecoverExact`, `Recovery.GenesisForkBreaks` and `Recovery.AppendKeepsChainExactly`.
- Recovery.RunSafe: epoch and summary pointer after record loss are not restored by the source and nothing is claimed about them; hard delete and TTL sweep while a writer is warm, and the owner stamp of user and administrator appends as a step of a run, are left out; `Owner.StampResetsTurn` says what one stamp does.
- ExactlyOnce.ExactlyOnceInOrder: excludes `AppendBuffer.flush`, which requeues a failed event at the back, and `stop`, which drops the one in flight; it needs the writer to stay up, as a new writer's window is empty.
- AppendBuffer.AppendBuffer.Retry: takes the outcomes of its attempts as a sequence; back-off delays are not modelled.
- Render: lines of the log that are no schema events are skipped before rendering and are not modelled; `render_transcript`, which has no summary and no tail, would add only a fold.
- Compact.Compactor.MaybeCompact: one step, with the writer's answer and what follows it as parameters and the writer's own index update taken as landed; the language-model summarizer is the deterministic one of the source; reads that fail before anything is written, and a summary sent by a client, are left out.
- CompactSafety.CompactionForgetsNothing: needs a tail of at least 1, where the source's configuration demands 4.
- PipelineSafety.CommitsWhatWasHeard: given TTS chunks that cover each clause exactly, the contract `Interrupt.OneChunkCovers` meets always and the metered TTS under `CharMeter.CoveredExactly`; without it see `PipelineSafety.CommitsWhatIsCovered` and `Coverage.CommitsInputUpToGap`.
- Pipeline.Step: a step runs to the next await; frames of the lip-sync stage carry no span and are not modelled; the finder, its maximum and the TTS are parameters.
- Response.Response.RunResponse: schedules the stage furthest downstream that can move; every other schedule is covered by the lemmas of `PipelineSafety` and `PipelineProgress`.
- Clause.ClauseChunker.FindBoundary: lower-casing is for ASCII letters, which is what the abbreviations consist of.
- Envelope.Unwrap: streams that start with a brace; role prefixes before it are left out, as their outcome depends on the cuts. The head's length is computed from the fixed head, which is the only form the classifier lets reach the regular expression.
- CharMeter.Meter: sentence lengths and synthesized buffers are parameters; the last buffer is told by its position, where the source compares objects. Sentence splitting and prosody are left out.
- Registry: one operation is one step; `fill + 1` at a cap of 2^32 - 1 would overflow in the source and is unbounded here; pod versions are left out.
- Router.FillIsExact: pick and assign are one step; a pod that registers again starts from no sessions, as the registry does; a session's end is taken to release its place, while nothing in the orchestrator calls `release`, so there the place stays taken until the pod's next ping.
- Scaler.Decide: sums of capacities are unbounded.
- Tick.RunTick: queue length, provider answers and new ids are parameters, a new row is stamped with the tick's time; the decision log and metrics are left out, and nothing is claimed about CancelCooldown, which the executor ignores.
- RateLimiter.FixedWindowBound: needs a clock that never goes back; lock poisoning is left out.
- Turn.TurnFsm.OnVad: the clock's reading comes with the frame.
- HTTP, WebSocket, WebRTC, Redis, S3, audio and speech libraries, tokens, authorization, redaction, audit, metrics, the client, deployment and scripts: foreign or single branches.
