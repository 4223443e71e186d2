# Document ingestion, erasure, chunking, answer streaming and listing

A Dafny model of the parts of the repository where a mistake is silent: the document lifecycle that the worker, the
API and the reaper share without holding a lock while they index; the chunker that decides what is stored; the answer
stream from the server's frames to what two different clients report; the keyset listing; and the two helpers that
feed the index. Everything is stated for all inputs, all texts, all ways of cutting a stream, and all interleavings.

## What is modelled

**The lifecycle as one step system** (`Documents`, `Protocol`, `ProtocolSafety`, `ProtocolErasure`, `ProtocolIndex`,
`ProtocolRecovery`, `ProtocolLimits`, `ExternalIds`). One row per document, the vector collection, the object store, a
clock, and any number of workers and erasures, each with its own program counter. A committed transaction is one step
and so is each call to a store; a process may stop between any two of its steps, and a store call may take effect
although its caller sees an error. Events arrive in any order, any number of times, with any etag. A run is
*disciplined* when a worker clears, upserts and finishes only within the lease of its own claim, and when the two
writers without a fence (quarantine, and the re-sync of a known external id) meet no row that is `processing` or
`deleting`. The hypotheses are predicates over steps (`Protocol.Punctual`, `Protocol.Fenced`), and `ProtocolLimits`
shows that each part of them is needed, with one undisciplined step in a run that is disciplined before it, and after
it where it goes on. A quarantine or a re-sync of a row that is `processing` or `deleting`, a late finish and a late
upsert each lead to vectors of a document whose row is gone. A late clear cannot do that; it leaves a document ready
with none of its vectors.

The steps stand for: `Create`, `Refresh`, `Resync` (crates/api/src/upload/mod.rs:41-56, 75-86, 146-169); `Put` and
`Drop` (an object stored or removed at any time, crates/worker/src/main.rs:420); `Deliver` (a claim,
crates/worker/src/lifecycle.rs:40-113); `Quarantine` (lifecycle.rs:211-233); `Head`, `Fetch`, `Clear`, `Upsert`, `Fail`,
`Finish` (crates/worker/src/main.rs:500-508, 544-559, 580-590, 628-633, any `?` between them, 447-495); `Crash` and
`Abandon` (a process gone); `Delete` (crates/api/src/handlers.rs:1244-1280); `Select`, `EraseVectors`, `EraseObject`,
`EraseRow` (crates/worker/src/reaper.rs:121-163, handlers.rs:1317-1333 and 1291-1298); `Expire` and `Reclaim`
(reaper.rs:74-85).

`ProtocolVerdicts` needs no discipline: in every run the status a tenant sees and the verdict beside it agree.

**The programs themselves** (`Services`, `Reaper`). The worker's `handle`, the API's document writes and the reaper's
sweep as methods on a class with the stores as fields. `Services.Stores.Handle` and `Services.Stores.DeleteDocument` are
proved to do exactly what a run of the step system does, whichever call fails; the sweep loops are
proved against a closed form of what is overdue.

**Chunking** (`Chunking`, `ChunkPieces`, `ChunkBoundaries`, `ChunkPacking`, `ChunkProperties`, `ChunkSpans`,
`ChunkBudget`, `FixedWindow`). The loops over parts, pieces and windows are methods; each equals a specification over
spans of the source text, about which coverage, budgets, boundaries and the recorded positions are proved: stronger
separators before weaker ones, exactly when a word is split, and that the packing is the one greedy packing.

**The answer stream** (`Conversation`, `Transcripts`, `AskStream`, `Sse`, `SseEncoding`, `Widget`, `AskClients`,
`EndToEnd`, `WidgetAnswer`, `CarriageReturns`). The server's frames, their encoding on the wire with keep-alive
comments, the dashboard's decoder (sections 9.2.5 and 9.2.6 of the WHATWG HTML Standard, with the departure the source
explains), the widget's decoder, what both clients report and show, and the conversation rows a finished answer leaves.
`Transcripts` has any number of requests recording their turns at once, each insert drawing its own sequence number.

**The listing** (`Listing`, `Cursor`) and **the helpers** (`Sorting`, `Embedding`, `Sparse`). `Text` holds strings.

## What the code does differently from what it says

- A chunk is not bounded by `chunk_size`: after the overlap is carried the next piece is added without a second check.
  The bound is `chunk_size + overlap`, which some text reaches (`ChunkBudget.BoundAttained`);
  `ChunkBudget.BudgetKeptIff` gives the settings that keep the smaller one.
- The hard cut is said to be for a word over the budget only. A word of exactly the budget is cut off from the break
  after it as well (`ChunkPieces.CutsHardIff`), which splits no word (`ChunkPieces.WordsSplitIff`).
- Chunks are not always verbatim, as the comment in `chunk_with_spans` has it: whitespace-only pieces are dropped.
- The comment on `finish_from_processing` has the fence fire only on a row the worker still owns. It compares the status,
  not the claim, so a worker that outlived its lease finishes its successor's claim (`ProtocolLimits.FinishNeedsLease`).
- An overwrite whose text is all whitespace makes a document ready under the new etag with the old points in place
  (`ProtocolLimits.BlankOverwriteKeepsOldPoints`).
- While a document is being deleted its external id is still taken, so a re-sync of it is refused by the unique index
  rather than given a new document.
- A carriage return inside a token reaches the dashboard as a line feed, and the widget as itself followed by the text
  `data: `. On a whole answer the two clients show the same text exactly when no token holds one and the widget has
  not replaced it by a message (`CarriageReturns.AnswersAlikeIff`).
- `_finalize` in the widget is said to mirror the dashboard's terminal logic, and the playground to show exactly what
  visitors see. The widget says nothing of an answer cut off after its first token, which the dashboard reports
  (`WidgetAnswer.CutAfterToken`); on an error, and when the socket dies even after `done`, it overwrites the tokens that
  the dashboard keeps (`WidgetAnswer.WidgetAgainstDashboard`).
- A claim clears error and reason together because either alone would be untrue; a re-sync clears only the error.
- A turn whose recording fails is only logged, so a client that reports success may have an answer the conversation
  does not hold (`EndToEnd.OkThoughUnrecorded`). Success means recorded exactly when the transaction commits or there
  is nothing to record (`EndToEnd.OkMeansRecordedIff`).
- Questions and answers are meant to alternate in a transcript. Nothing is locked while a turn is recorded and each of
  its two rows draws its own number, so two requests at once on one conversation can leave two questions followed by
  two answers (`Transcripts.CrossedTurnsBreak`). It alternates exactly when no two turns overlap
  (`Transcripts.TranscriptsWholeIff`).
- A worker whose lease ran out before its first write can still clear: a document its successor made ready is left
  without vectors (`ProtocolLimits.ClearNeedsLease`).
- `is_our_timestamp` is there to keep a failing cast from becoming an internal error, but days that no month has pass it
  and fail the cast, and so does 23:59:60 with a fraction, which lies past the end of its day (`Cursor.CastFailsIff`).

## Model

| member | source | states |
|---|---|---|
| ProtocolSafety.RunKeepsSafe | crates/worker/src/lifecycle.rs:1-8 | every disciplined run keeps: vectors belong to existing rows of their tenant, a live claim is the row's, one live claim per document, the lease clock runs only under a claim or tombstone, erasures run only where no live claim is left |
| ProtocolSafety.StepKeepsSafe | crates/worker/src/lifecycle.rs:40-113 | each single step of worker, API and reaper keeps that invariant |
| ProtocolErasure.OneLiveWorker | crates/worker/src/lifecycle.rs:3-6 | in every reachable state at most one worker with a live lease is between claim and finish of a document |
| ProtocolErasure.ErasedForGood | crates/worker/src/reaper.rs:107-112 | a document whose row is removed has no vectors, and never gets a row or a vector again, in every disciplined continuation |
| ProtocolErasure.TombstoneStands | crates/api/src/handlers.rs:1265-1272 | under the fence alone, even with late workers, a tombstoned row changes only by its removal |
| ProtocolErasure.FinishIsTheOwners | crates/worker/src/lifecycle.rs:168-207 | within the lease, what a worker finishes is its own claim, and it is refused exactly when the row was tombstoned |
| ProtocolErasure.DeletionResumes | crates/worker/src/reaper.rs:100-166 | wherever a deletion was left, one sweep after the lease removes vectors, object and row |
| ProtocolIndex.AlwaysWhole | crates/worker/src/main.rs:578-634 | after every disciplined run a document has no points, or exactly one for each chunk of one text that was stored for it in that run, under its row's tenant: none missing, none left over |
| ProtocolIndex.FinishExactIff | crates/worker/src/main.rs:555-559 | a finished ingest leaves exactly its chunks if and only if it had chunks or nothing was stored before |
| ProtocolIndex.SettledStays | crates/worker/src/lifecycle.rs:97-102 | duplicates, redeliveries, crashes and sweeps change neither row nor points of a ready document |
| ProtocolIndex.FixedObjectIndexed | crates/worker/src/main.rs:592-593 | while an object's text stays the same, a ready document has exactly one point per chunk of it, whatever was retried, and keeps them |
| ProtocolIndex.OthersUntouched | crates/worker/src/main.rs:580-590 | a step changes the points of no document but the one it indexes or erases |
| ProtocolIndex.TenantsIsolated | crates/worker/src/lifecycle.rs:7-8 | a step for one tenant changes neither rows nor points of another, although workers clear by document alone |
| ProtocolRecovery.IngestCompletes | crates/worker/src/main.rs:424-443 | a worker alone on a claimable document makes it ready with the chunks of its object; points of an older version survive only when there is nothing to index |
| ProtocolRecovery.NeverStuck | crates/worker/src/reaper.rs:41-49 | whatever crashed, a document neither quarantined nor being deleted can still be brought to ready under its object's etag |
| ProtocolLimits.ChunksOfBlank | crates/worker/src/main.rs:555-559 | nothing is indexed exactly when the text is all whitespace; otherwise the chunks of 500 characters with an overlap of 60 |
| ProtocolLimits.BlankOverwriteKeepsOldPoints | crates/worker/src/main.rs:555-559 | overwriting with whitespace leaves the row ready under the new etag and the old points in place |
| ProtocolLimits.QuarantineNeedsFence | crates/worker/src/lifecycle.rs:209-233 | one unguarded quarantine of a document being indexed ends in vectors without a row |
| ProtocolLimits.ResyncNeedsFence | crates/api/src/upload/mod.rs:156-169 | so does one unguarded re-sync |
| ProtocolLimits.QuarantineNeedsFenceDeleting | crates/worker/src/lifecycle.rs:209-233 | and one unguarded quarantine of a document being deleted, with the erasure half done |
| ProtocolLimits.ResyncNeedsFenceDeleting | crates/api/src/upload/mod.rs:156-169 | and one unguarded re-sync of it |
| ProtocolLimits.FinishNeedsLease | crates/worker/src/lifecycle.rs:168-207 | so does one late finish, which marks a successor's claim ready while the successor is still writing |
| ProtocolLimits.WriteNeedsLease | crates/worker/src/reaper.rs:107-112 | so does one upsert after the lease |
| ProtocolLimits.ClearNeedsLease | crates/worker/src/main.rs:580-590 | one clear after the lease leaves the successor's document ready, with exactly its chunks before and no vectors after |
| ProtocolLimits.LateClearKeepsSafe | crates/worker/src/main.rs:580-590 | a clear, however late, keeps the safety invariant |
| ProtocolLimits.FinishWritesNothingIff | crates/worker/src/lifecycle.rs:180-207 | a finish, on time or late, writes nothing exactly when no row of that tenant is `processing` there |
| ProtocolVerdicts.VerdictsStayHonest | crates/worker/src/lifecycle.rs:77-81 | in every run a row that is being indexed or ready carries no old error or reason and knows its object, and one that failed or was withheld carries both |
| ProtocolVerdicts.ResyncKeepsReason | crates/api/src/upload/mod.rs:161-167 | a re-sync clears the error and leaves the failure reason |
| Services.Stores.Claim | crates/worker/src/lifecycle.rs:40-113 | claims a row of this tenant whatever its status, except a `ready` one with the same etag, a `processing`, a `quarantined` and a `deleting` one, each of which is skipped with its own reason; else finds no document |
| Services.Stores.Finish | crates/worker/src/lifecycle.rs:115-207 | writes the outcome only on a `processing` row, column by column with the reason each cause is shown as, and reports whether it did |
| Services.Stores.MarkQuarantined | crates/worker/src/lifecycle.rs:144-246 | writes `quarantined` and `too large` whatever the status, and reports whether a row was found |
| Services.Stores.Ingest | crates/worker/src/main.rs:537-634 | download, parse, chunk, embed, clear, upsert is a run of the step system, for every call that may fail |
| Services.Stores.Index | crates/worker/src/main.rs:574-634 | clearing before writing, including a write that took effect although it was reported lost |
| Services.Stores.Batch | crates/worker/src/main.rs:592-626 | the loop builds one point per chunk at the id of its index |
| Services.Stores.VerifyAndIngest | crates/worker/src/main.rs:497-518 | a missing object or a different size stops the ingest before anything is written |
| Services.Stores.Settle | crates/worker/src/main.rs:446-495 | records the outcome; the event is done exactly when the document is indexed and recorded so, given up exactly when it can never be embedded, and tried again otherwise |
| Services.Stores.Handle | crates/worker/src/main.rs:393-495 | one event: unchanged and retried without a database, quarantined when oversize, skipped when not claimable. A claimed one is done exactly when everything was indexed and recorded, in which case its row is `ready` and its points are the chunks of its object; it is given up exactly when the call that stopped it failed because the text can never be embedded; after every other failure, lost write, missing or resized object it is tried again. What each of these leaves in rows and points is stated column by column, and all of it is a run of the step system |
| Services.CleanHandleIsIngest | crates/worker/src/main.rs:424-443 | when nothing fails this run is the ingest that `ProtocolRecovery.IngestCompletes` is about |
| Services.Stores.CreateSession | crates/api/src/upload/mod.rs:23-64 | inserts an `uploading` row with its expiry, every other column empty, or nothing when the id is used |
| Services.Stores.RefreshSession | crates/api/src/upload/mod.rs:66-103 | only an upload that never landed is `uploading` again, with the new expiry |
| Services.Stores.InlineDocument | crates/api/src/upload/mod.rs:123-190 | reuses the row of a known external id, else inserts one without expiry, else is refused because the id is taken |
| ExternalIds.RunKeepsUnique | crates/api/src/upload/mod.rs:128-136 | given the unique index on inserts, no other statement of any run can give a tenant two documents of one external id |
| Services.Stores.EraseStores | crates/api/src/handlers.rs:1304-1336 | vectors, object, row, stopping at the call that fails, as the erasure steps do; which of the three are gone for each failing call |
| Services.Stores.DeleteDocument | crates/api/src/handlers.rs:1208-1302 | not found without a change; deferred for a processing or deleting row, with the tombstone only; answered with 204 when the document's vectors, its object and its row are gone and every other stays; an error leaves the tombstone and what the failing call and the later ones erase. Each is a run of the step system |
| Reaper.SweepOne | crates/worker/src/reaper.rs:41-85 | expires uploads 300 seconds past their expiry and fails claims older than 1800 seconds with the message and reason of a dead worker, for one tenant, counting them; a failed statement changes none |
| Reaper.FinishDeletions | crates/worker/src/reaper.rs:113-166 | removes tombstones unclaimed for 1800 seconds; when the query or a call fails, rows removed are among objects removed, which are among documents whose vectors are gone |
| Reaper.SweepTenant | crates/worker/src/reaper.rs:71-88 | succeeds exactly when none of a tenant's statements and calls fails; otherwise its share stops after the last one that did not |
| Reaper.Sweep | crates/worker/src/reaper.rs:67-98 | succeeds exactly when no query, statement or call it needs fails; then the stores are settled for all tenants and the counts are the rows changed, otherwise settled for the tenants before the failure and interrupted at one |
| Reaper.SettledIsClean | crates/worker/src/reaper.rs:67-98 | after a sweep nothing is overdue, only overdue rows changed, only finishable tombstones vanished, and an upload without expiry is left alone |
| Reaper.ProgressMore | crates/worker/src/reaper.rs:71-96 | sweeping one more tenant adds up states and counts |
| Chunking.SplitToSize | crates/common/src/chunk.rs:78-117 | the recursive split returns exactly the slices at the specified spans |
| Chunking.MergeWithOverlap | crates/common/src/chunk.rs:120-156 | the packing loop yields the chunks of the specified windows of pieces |
| Chunking.ChunkTextRecursive | crates/common/src/chunk.rs:69-75 | blank texts and a zero budget give nothing, otherwise split and merge |
| Chunking.ChunkWithSpans | crates/common/src/chunk.rs:175-202 | each chunk with its first occurrence from the previous start, or that start |
| ChunkPieces.PiecesTile | crates/common/src/chunk.rs:78-117 | pieces are non-empty, within budget, in order, and leave out nothing but whitespace |
| ChunkPieces.CutsHardIff | crates/common/src/chunk.rs:50-56 | a piece is cut regardless of boundaries exactly when some word, with the break after it, is longer than the budget |
| ChunkPieces.WordsSplitIff | crates/common/src/chunk.rs:50-56 | every cut lies between words exactly when every word fits the budget |
| ChunkPieces.PiecesAtBreaks | crates/common/src/chunk.rs:78-117 | when words fit with their breaks nothing is cut hard, and every piece begins and ends at a space, a newline or an end of the text |
| ChunkBoundaries.PiecesWellCut | crates/common/src/chunk.rs:50-59 | for each rung of the ladder of separators, written out: a piece begins and ends at one of the stronger ones, unless the stretch between them it lies in is over the budget; and a piece that holds the next separator before its end is a whole stretch between stronger ones |
| ChunkBoundaries.FittingRunsKept | crates/common/src/chunk.rs:78-117 | when every stretch between the `n` strongest separators fits, pieces begin and end only there |
| ChunkBoundaries.FittingStretchesKept | crates/common/src/chunk.rs:61-63 | paragraph, line, sentence, clause, word: where no stronger separator occurs and all stretches up to the next one fit, pieces begin and end only at that one |
| ChunkPacking.MergePacksGreedily | crates/common/src/chunk.rs:119-156 | chunks are the trims of runs of pieces, each closed only at a piece that would exceed the budget and never earlier, each taking back as many whole pieces as fit the overlap |
| ChunkPacking.PackedUnique | crates/common/src/chunk.rs:119-156 | there is only one such packing of the pieces |
| ChunkProperties.WindowsChain | crates/common/src/chunk.rs:125-153 | windows overlap or touch, advance, and reach the last piece |
| ChunkProperties.ChunkIsTrimmedRun | crates/common/src/chunk.rs:119-156 | every chunk is the trim of a run of consecutive pieces |
| ChunkProperties.ChunksCoverText | crates/common/src/chunk.rs:69-156 | with whitespace erased, chunks are slices of the text that cover all of it in order |
| ChunkProperties.ChunksBounded | crates/common/src/chunk.rs:125-147 | no chunk exceeds budget plus overlap |
| ChunkProperties.ProductionChunksBounded | crates/common/src/chunk.rs:21-22 | 560 characters in production |
| ChunkProperties.ChunksEndAtWords | crates/common/src/chunk.rs:50-68 | when every word fits, each chunk begins with the first ink and ends with the last ink of pieces of its own window that are cut between words, only blank pieces of the window outside them |
| ChunkBudget.BudgetKeptIff | crates/common/src/chunk.rs:142-146 | every chunk of every text fits the budget exactly for size zero, overlap zero, or overlap one with size at least two |
| ChunkBudget.BoundAttained | crates/common/src/chunk.rs:130-146 | for any other setting a text whose chunk has budget plus overlap characters |
| ChunkBudget.LongestChunkIs | crates/common/src/chunk.rs:120-156 | for every setting the length of the longest chunk any text has, which is 560 characters in production |
| ChunkSpans.SpansWellLocated | crates/common/src/chunk.rs:175-194 | starts never decrease, lengths agree, and a span mismatches exactly when its chunk does not occur from the previous start on |
| ChunkSpans.SpansVerbatim | crates/common/src/chunk.rs:179-181 | if splitting dropped nothing every span holds its chunk |
| ChunkSpans.ChunkVerbatimIff | crates/common/src/chunk.rs:179-181 | a chunk is the slice of the text between its own ends exactly when no whitespace was dropped between the pieces of its run |
| ChunkSpans.DroppedWhitespaceMismatch | crates/common/src/chunk.rs:107-109 | a text with four newlines whose one span holds something else |
| FixedWindow.ChunkText | crates/common/src/chunk.rs:27-48 | the window loop terminates for every size and overlap and collects the trimmed windows |
| FixedWindow.FixedWindowsAre | crates/common/src/chunk.rs:27-48 | windows start every `size - overlap` characters, or every one where that leaves no step, are `size` wide up to the end, and stop with the first to reach it |
| FixedWindow.FixedChunksCover | crates/common/src/chunk.rs:24-26 | every position lies in a window within budget whose trim is a chunk unless blank |
| FixedWindow.FixedChunksFit | crates/common/src/chunk.rs:27-48 | no chunk is empty or over the budget |
| Sse.Decoder.Push | web/src/lib/features/chat/sse.ts:90-122 | a chunk yields the frames of all certain lines and keeps the rest |
| Sse.Decoder.Consume | web/src/lib/features/chat/sse.ts:65-87 | one line updates the frame in progress or completes it |
| Sse.Decoder.Dispatch | web/src/lib/features/chat/sse.ts:57-63 | a frame that carried a field is delivered, even without data |
| Sse.PushSplits | web/src/lib/features/chat/sse.ts:89-122 | pushing two parts yields the frames and the state of pushing them at once, even inside a CRLF |
| Sse.DecodeAnySplit | web/src/lib/features/chat/sse.ts:89-122 | decoding does not depend on how the network cuts the stream |
| SseEncoding.DecodeWire | web/src/lib/features/chat/sse.ts:11-30 | any encoded frames with keep-alives between them decode to those frames, under any cut, leaving nothing behind |
| SseEncoding.RoundTripIff | web/src/lib/features/chat/sse.ts:11-30 | one frame survives exactly when it is named and its data holds no carriage return |
| SseEncoding.EndingsAgree | web/src/lib/features/chat/sse.ts:32 | CR and CRLF decode as LF does |
| Widget.Reader.Read | widget/widget.js:156-169 | the read loop yields the events of all blocks closed by a blank line |
| Widget.ParseEvent | widget/widget.js:275-282 | the block parser computes the event its lines name |
| Widget.WidgetStreamedWhole | widget/widget.js:156-169 | the widget's events do not depend on the cut either |
| Widget.DecodersAgree | widget/widget.js:275-282 | on LF-only streams of plain lines both decoders deliver the same events of the five names |
| Widget.ClientsAgree | widget/widget.js:156-169 | and under any two cuts of the stream |
| AskStream.StreamAnswer | crates/api/src/handlers.rs:1053-1095 | the loop over the model's stream, with empty deltas, failure and deadline, as the next three rows describe it |
| AskStream.DeadlineIsNoFailure | crates/api/src/handlers.rs:1065-1078 | deltas that end, or that the deadline cuts off, are an answer: their tokens, `done`, no error, and a turn holding all of them unless they are empty |
| AskStream.BreakIsFailure | crates/api/src/handlers.rs:1079-1084 | deltas and then a failure: their tokens, one error, `done`, and nothing recorded |
| AskStream.WithoutStream | crates/api/src/handlers.rs:1043-1051 | a stream that never starts is an error with nothing recorded; a question that retrieves nothing is refused, and the refusal recorded without citations |
| AskStream.PollsEnd | crates/api/src/handlers.rs:1063-1088 | there is no fourth kind: every stream is deltas up to its end, the deadline or a failure |
| AskStream.Ask | crates/api/src/handlers.rs:1036-1109 | the frames sent and the turn recorded, for a refusal, an answer, a failure and an empty answer |
| AskClients.ReadBody | web/src/lib/features/chat/ask.ts:111-163 | the read loop stops at the first terminal frame |
| AskClients.Ask | web/src/lib/features/chat/ask.ts:89-187 | the outcome and the handler calls of every response |
| AskClients.VerdictIs | web/src/lib/features/chat/ask.ts:111-187 | the verdict by the frames: cut short without an end, failed at an error, without words after sources and no token, else a success; what follows the end is not read |
| AskClients.Finalize | widget/widget.js:252-273 | the widget's last word: none after an error or after the first token of an answer cut off, else a message when nothing was said or the end is missing |
| AskClients.WidgetTurn | widget/widget.js:125-212 | the widget's bubble after every response, a stream whose socket closes or dies among them |
| AskClients.BubbleIs | widget/widget.js:179-273 | the bubble by the frames, with the widget's own sentences: which one is shown when, and otherwise the tokens put together |
| EndToEnd.AnswerEndToEnd | crates/api/src/handlers.rs:1036-1109 | for every answer, keep-alives and cut, the client reports `ok` exactly when there is a turn to record, `refused` exactly when nothing was retrieved, and the tokens are the answer of that turn |
| EndToEnd.OkMeansRecordedIff | crates/api/src/handlers.rs:1097-1105 | `ok` says that the turn was recorded exactly when the transaction commits or there is no turn; then the rows gained are that turn's, with the text shown; without the commit `ok` comes with no row |
| EndToEnd.OkThoughUnrecorded | crates/api/src/handlers.rs:1043-1051 | a question that retrieves nothing, reported as a success, with nothing recorded |
| EndToEnd.CutNeverOk | web/src/lib/features/chat/ask.ts:165-168 | a stream cut anywhere is never `ok`, and the calls made are a prefix of all of them |
| EndToEnd.FinishedVerdict | web/src/lib/features/chat/ask.ts:165-187 | which verdict a finished stream gets |
| EndToEnd.DeadlineEndToEnd | crates/api/src/handlers.rs:1065-1071 | an answer the deadline cut off reaches the dashboard as a success with all its deltas, under any cut of the wire |
| WidgetAnswer.WidgetAgainstDashboard | widget/widget.js:252-273 | on any part of an answer without carriage returns, under any two cuts: the widget writes a message of its own exactly after an error, a dead socket, or no token and either no end or some sources; its failures are the dashboard's, with the same cause, except that it takes an answer cut off after its first token for whole, and disowns a complete one whose socket dies; and it shows the dashboard's text exactly when it writes no message |
| WidgetAnswer.VerdictsCompare | widget/widget.js:179-212 | the same for the two event handlers on every orderly stream |
| WidgetAnswer.CutBeforeDone | web/src/lib/features/chat/ask.ts:168 | any answer that lacks only its `done`: cut short to the dashboard, whole to the widget |
| WidgetAnswer.CutAfterToken | widget/widget.js:254-263 | the stream of one token and no end, for which the clients differ |
| CarriageReturns.FrameReadsAlikeIff | widget/widget.js:275-282 | a frame reads alike in both clients exactly when its data holds no carriage return |
| CarriageReturns.AnswersAlikeIff | widget/widget.js:179-212 | on every whole answer, under any two cuts: the widget's bubble is what the dashboard shows exactly when the widget wrote no message over it and no token holds a carriage return; the clients report failure alike unless the sources hold one, or a socket dies after a complete answer |
| CarriageReturns.CarriageReturnDiffers | widget/widget.js:275-282 | what each client makes of a carriage return between two characters |
| Conversation.Messages.AppendTurn | crates/api/src/conversation.rs:109-150 | the question and then the answer, or neither; only the answer cites |
| Transcripts.TranscriptsWholeIff | crates/api/src/conversation.rs:109-152 | after any interleaving of requests a conversation alternates question and answer exactly when no two of its recorded turns overlap in their numbers; so do all its even windows |
| Transcripts.HistoryWholeIff | crates/api/migrations/0007_conversations.sql:19 | the same for any numbering of rows, each question paired with its own answer |
| Transcripts.CrossedTurnsBreak | crates/api/src/conversation.rs:126-150 | two requests at once leave two questions and then two answers |
| Transcripts.RunWholeIff | crates/api/src/conversation.rs:126-150 | the same in the order of the run's own inserts: whole exactly when no two recorded turns each inserted the question before the other's answer |
| Transcripts.TimelineRecorded | crates/api/src/conversation.rs:126-150 | that order lists turns at the places where one transaction inserted them before it committed |
| Transcripts.OneAtATimeStaysWhole | crates/api/src/conversation.rs:109-152 | while no question is inserted before the previous answer of its conversation, every transcript is whole |
| Listing.CheckedPageLimit | crates/api/src/handlers.rs:405-427 | fifty when none is given, a given one from one to two hundred as it is, else an error |
| Listing.BelowIs | crates/api/src/handlers.rs:1158-1166 | the order of the list: older first, and in the same microsecond the smaller id |
| Listing.EligibleIs | crates/api/src/handlers.rs:1158-1166 | a page may show exactly the rows not being deleted that come below its cursor in that order |
| Listing.PageIs | crates/api/src/handlers.rs:1158-1201 | a page descends, is eligible, is full when there is a next one, and what it leaves out lies below its cursor |
| Listing.WalkDescends | crates/api/src/handlers.rs:429-437 | however the table changes between requests keys strictly descend through a walk |
| Listing.WalkNeverRepeats | crates/api/src/handlers.rs:429-437 | so no row is returned twice |
| Listing.WalkComplete | crates/api/src/handlers.rs:429-437 | and every row present at each request of a completed walk is returned |
| Listing.FixedTableWalk | crates/api/src/handlers.rs:1158-1201 | on a table that stays the same the pages are the whole list in order |
| Listing.PageCountRoundsUp | crates/api/src/handlers.rs:1173-1196 | in `max(1, ceil(n / limit))` pages |
| Cursor.CursorRoundTrip | crates/api/src/handlers.rs:443-473 | every printed time and id survive the cursor text and are cast to the same instant |
| Cursor.AcceptedIff | crates/api/src/handlers.rs:475-521 | exactly which timestamps the parser accepts: fields within their ranges, and a tail |
| Cursor.TailsAre | crates/api/src/handlers.rs:511-521 | the tails accepted after the seconds: a dot with one to six digits or none, and one of six spellings of UTC |
| Cursor.CastFailsIff | crates/api/src/handlers.rs:475-521 | an accepted timestamp fails the cast exactly when its day does not exist, leap years included, or it is 23:59:60 with a fraction that is not zero |
| Cursor.NoSuchSecond | crates/api/src/handlers.rs:503-510 | such as 23:59:60.5 on any last leap second |
| Cursor.RefusalsAre | crates/api/src/handlers.rs:1113-1206 | which requests are refused: a limit outside 1 to 200 before anything else, then a cursor that is not an accepted timestamp, `~` and an id, then one whose timestamp cannot be cast |
| Cursor.ClientWalkIsWalk | crates/api/src/handlers.rs:1113-1206 | a walk through cursor texts meets no error and is the walk by keys |
| Embedding.OrderEmbeddings | crates/common/src/embedding.rs:211-244 | succeeds exactly when there are as many vectors as texts, of 1536 numbers each, under distinct labels below that number, and then places each vector at its label |
| Embedding.OrderDoesNotMatter | crates/common/src/embedding.rs:40-41 | the order of a response does not change the result |
| Embedding.EmbedOneBatch | crates/common/src/embedding.rs:173-208 | an empty batch needs no request; an error or unusable response fails |
| Embedding.EmbedBatch | crates/common/src/embedding.rs:147-155 | succeeds exactly when every batch is usable, and then returns for text `k` a vector that reply `k / 96` labels `k % 96` |
| Sorting.SortByKey | crates/common/src/embedding.rs:226 | sorted, each element used once |
| Sparse.SplitRejoins | crates/common/src/sparse.rs:37-39 | splitting into words loses nothing |
| Sparse.TokensAreRuns | crates/common/src/sparse.rs:37-42 | the tokens are, in order, the lower-cased maximal alphanumeric runs of two characters or more, each once |
| Sparse.TokenId | crates/common/src/sparse.rs:62-73 | the hashing loop computes FNV-1a on 32 bits without the top bit |
| Sparse.XorBits | crates/common/src/sparse.rs:64-73 | the exclusive or the hash is built on, bit by bit |
| Sparse.ShortIds | crates/common/src/sparse.rs:64-73 | the ids of the empty input and of a single byte, from the published FNV-1a constants |
| Sparse.Encode | crates/common/src/sparse.rs:50-60 | strictly increasing indices, each token's id among them, each weight the number of tokens under its index |
| Sparse.EncodingUnique | crates/common/src/sparse.rs:55-58 | one result, whatever order the hash map is read in |
| Sparse.WeightsCountRuns | crates/common/src/sparse.rs:37-60 | read off the text: each weight is the number of its maximal runs that hash to the index, every run is counted, and the weights together are the number of runs |
| Sparse.WeightsAddUp | crates/common/src/sparse.rs:50-73 | weights sum to the token count and are positive, indices fit 31 bits |

## Left out

- The legacy queue consumer and `reindex_all`: they ignore or bypass the claim.
- Tenant erasure: its second vector sweep gives only a bounded race.
- A store call that takes effect after its caller gave up and moved on; a call takes effect when it is made or not at all.
- A partial upsert: one call writes all the points of a document or none.
- `Services.Stores.Handle`: the clock stands still while one event is handled; `Protocol` has the interleavings with time.
- `Reaper.Sweep`: the clock stands still during a sweep and no worker runs beside it; `Protocol` has those interleavings.
- When answers are generated relative to each other; of two requests at once only the inserts appear.
- Redaction of conversation turns that cite a deleted document, audit rows, and the response bodies of the API.
- The queue: redelivery is any delivery at any time, so its limits and dead letters do not appear.
- Parsing of object keys and of event bodies: an event names its tenant and document, and an object is stored per document.
- The parser, the embedding vectors of points and `created_at` in their payload: a stored object carries its extracted text.
- `EmbedError::is_fatal`: only whether a failure is of the fatal kind appears.
- `Embedding.EmbedBatch`: numbers are exact reals, so rounding to 32 bits does not appear; which error is reported is not stated.
- `Sparse.Encode`: counts are exact, where the code counts in 32-bit floats up to 2 to the 24.
- `Sorting.SortByKey`: an insertion sort stands for the library's sort, whose stability is not needed.
- Query rewriting, retrieval scores and the relevance floor.
- `Cursor.CursorRoundTrip`: the session's time zone is UTC, and ids print and parse as given.
- HTTP, authentication, rate limits, JSON, UTF-8 decoding, the document object model, and of the user interface all but the text of an answer.
