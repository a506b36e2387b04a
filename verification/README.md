# The tunnel backend, verified

This project models the hard parts of the tunnel backend in Dafny and proves what they promise: settling tunnels in
batches, the explorer's read model, streaming transcripts to object storage, throttled calls to the full node, and the
index, statistics, funding and sponsorship algorithms around them.

| files | what they model |
|---|---|
| `SettleBatch`, `SettleWorker`, `SettleDrain` | the binary split of a rejected batch, the close batch, the in-memory queue, one drain cycle and repeated drains |
| `SettleProtocol`, `SettleProtocolProofs`, `SettleProtocolSafety` | handlers, any number of workers and the event indexer, interleaved step by step |
| `SettleStateful`, `SettleRegistry` | a drain on a chain where tunnels close once, and what the registry shows over a run |
| `SettleHeader` | the settle body header and tunnel ids |
| `ExplorerMerge`, `ExplorerConfluence` | the indexer's and the proof subscriber's SQL statements as steps on maps, in any interleaving |
| `ChunkKeys`, `TranscriptStore`, `TranscriptStream` | object keys, the store, the recorder |
| `TranscriptRoll`, `TranscriptRollProofs`, `TranscriptRollSafety`, `TranscriptProgress` | many recorders and the bounded uploader with its shutdown drain, interleaved |
| `RpcLimiter`, `RpcCalls` | the adaptive limiter, one operation at a time and interleaved between its atomic accesses, and the retry loop |
| `Cursors`, `SettlementList`, `SettlementParity` | the settlement list page by page, in memory and from the database, and when the two stores agree |
| `TpsHistory`, `TpsQuery`, `TpsChart`, `TpsPoints`, `RateWindow` | throughput rates, their rollup and decimation, the sliding-window rate |
| `CoinFund` | coin selection and funding |
| `Sponsorship`, `SponsorFunds` | the checks on sponsored transactions, and whose funds these can use |
| `Text`, `Numbers`, `Wrappers` | string order, decimal numbers, shared arithmetic, options and results |

Code that changes state step by step is modelled by methods and classes, each tied by its contract to a function or a
state machine, and the properties are lemmas about those. Where the outside world decides, it is a parameter: the chain
and the node are arbitrary functions of the call number and the request, so they may answer differently every time;
clocks, storage outcomes and scheduling are arbitrary. The semaphore is taken at its documented contract: forgetting
permits removes free ones only.

Where the code and its documentation disagree, the model follows the code:

- Splitting a batch costs at most 2^depth - 1 retries only for batches of at most half of 2^depth closes
  (`SettleBatch.DocumentedBoundHoldsExactly`); beyond, up to 2^(depth+1) - 1 submissions.
- Duplicates are dropped by the id in the request path, so one tunnel under two spellings can be in a batch twice
  (`SettleDrain.TunnelTwiceExactlyWhenAliased`, `SettleDrain.AliasedBatchReached`), and in one
  drain such a tunnel ends both closed and announced as failed (`SettleStateful.ClosedAndFailedExactly`).
- A tunnel that cannot be resolved rejects its whole batch, good closes included (`SettleWorker.BatchIsolatedExactly`).
- Proof links depend on the order of arrival when one is for a transaction that settles nothing, or when two for one
  transaction differ (`ExplorerConfluence.ConfluentExactly`). A batch publishes a link per tunnel under its one digest, so
  of its tunnels at most one shows its own archived body (`ExplorerConfluence.AtMostOneOwnProof`).
- The limiter's maximum does not bound the calls in flight unless it equals both the minimum and the start
  (`LimiterRaces.MaximumHoldsExactly`).
- A history query can return 1001 points (`TpsPoints.QueryAtMostTargetExactly`), and over more than 100000 seconds the coarser
  fetch can hide peaks (`TpsChart.PeaksSurviveExactly`).
- The event indexer overwrites the registry with late events, so a settled tunnel can show as open again and be submitted
  again (`SettleRegistry.ReopenedExactly`, `SettleRegistry.ResubmittedExactly`); the safety results speak of tunnels that
  were ever closed.
- List cursors have three parts, not the two that the query type's comment describes; a cursor that does not parse starts
  from the newest row.
- Selecting coins fails when the running sum overflows, even if the coins cover the amount (`CoinFund.NoneExactly`).
- The in-memory settlement store keeps one row per digest, so rows of one transaction that settles many tunnels collapse
  there, unlike in the database (`SettlementParity.RowsAgreeExactly`, `SettlementParity.CountersAgreeExactly`).
- The stake of a sponsored transaction is the user's and never the sponsor's as long as the sender is not the sponsor; the
  code takes the sender from the request and does not compare the two (`SponsorFunds.NeverTheSponsorsExactly`).

## Model

| member | source | states |
|---|---|---|
| `SettleBatch.SplitSubmit` | backend/tunnel-manager/src/settle_batch.rs:15-68 | the work-stack loop ends with one result per close, in input order, and makes exactly the submissions of the recursive meaning `Isolate`, for any chain |
| `SettleBatch.Resolve` | backend/tunnel-manager/src/settle_batch.rs:34-58 | gives one verdict to the popped positions and touches no other slot |
| `SettleBatch.IsolateSplits` | backend/tunnel-manager/src/settle_batch.rs:50-61 | a rejected batch that can still be split resolves as its halves do, the right half first, one level deeper |
| `SettleBatch.DecidedOnce` | backend/tunnel-manager/src/settle_batch.rs:24-67 | each close has one deciding submission, the last that carried it; every earlier one was rejected, so nothing is resubmitted after it settled or met a busy node |
| `SettleBatch.LogIsWhatTheChainSaw` | backend/tunnel-manager/src/settle_batch.rs:28-41 | every submission was put to the chain under its own number and holds the closes of its positions, in order, and no others |
| `SettleBatch.SubmissionBound` | backend/tunnel-manager/src/settle_batch.rs:28-64 | at least one and at most min(2n - 1, 2^(depth+1) - 1) submissions |
| `SettleBatch.SubmissionBoundReached` | backend/tunnel-manager/src/sui.rs:37-39 | a chain that rejects everything reaches 2^(depth+1) - 1 submissions |
| `SettleBatch.DocumentedBoundHoldsExactly` | backend/tunnel-manager/src/sui.rs:37-39 | the documented bound of 2^depth - 1 retries holds for every chain if and only if the batch has at most half of 2^depth closes, or the depth is 0 |
| `SettleBatch.PoisonIsolated` | backend/tunnel-manager/src/settle_batch.rs:28-64 | with at most 2^depth closes, Rejected goes to exactly the poison closes and Settled to the others |
| `SettleBatch.NeighbourBlamed` | backend/tunnel-manager/src/settle_batch.rs:28-64 | with more than 2^depth closes a good close can be rejected with its poison neighbour |
| `SettleBatch.IsolationExactly` | backend/tunnel-manager/src/settle_batch.rs:28-64 | isolation holds for all poison sets if and only if the batch has at most 2^depth closes |
| `SettleBatch.PoisonPrice` | backend/tunnel-manager/src/settle_batch.rs:28-64 | a healthy batch costs one submission and each poison close at most two more per level |
| `SettleHeader.ParseInvertsEncode` | backend/tunnel-manager/src/routes.rs:133-156 | parsing gives back the settlement that was encoded, whatever entries follow the header |
| `SettleHeader.EncodeInvertsParse` | sui-tunnel-ts/src/proof/settleBinary.ts:45-69 | an accepted header is the encoding of what was parsed from it: nothing in it is ignored |
| `SettleHeader.HeaderIsAllThatCounts` | backend/tunnel-manager/src/routes.rs:158-174 | the 229-byte header re-parsed by the worker yields the settlement the handler accepted with the body |
| `SettleHeader.ClosePaysOut` | backend/tunnel-manager/src/routes.rs:158-174 | the close rebuilt from an encoded settlement, whatever entries follow, has its tunnel id, each party's own balance and signature, its time and its root |
| `SettleHeader.RefusedExactly` | backend/tunnel-manager/src/routes.rs:133-141 | a body is refused if and only if it is shorter than the header or of another version |
| `SettleHeader.BigEndianRoundTrip` | rust/engine/tunnel-core/src/wire.rs:102-111 | fixed-width big-endian numbers decode to what was encoded, for every width |
| `SettleHeader.BigEndianLeads` | rust/engine/tunnel-core/src/wire.rs:102-111 | the most significant byte comes first |
| `SettleHeader.HexEncodeInjective` | backend/tunnel-manager/src/routes.rs:146-146 | different tunnel bytes have different hexadecimal ids |
| `SettleHeader.HexEncodeReads` | backend/tunnel-manager/src/routes.rs:146-146 | two digits a byte, in order, the high one first |
| `SettleHeader.NormalizeCanonical` | backend/tunnel-manager/src/routes.rs:180-183 | a parsed id is already canonical up to its prefix |
| `SettleHeader.NormalizesSpellings` | backend/tunnel-manager/src/routes.rs:176-183 | ids compare equal up to any number of 0x in front, missing leading zeros and the case of letters |
| `SettleHeader.NormalizedIdsNameOneTunnel` | backend/tunnel-manager/src/routes.rs:457-467 | two headers whose ids normalize alike name one tunnel, so the path check accepts only the tunnel the body is about |
| `SettleProtocolProofs.StepKeepsBodies` | backend/tunnel-manager/src/settle_queue.rs:53-115 | every step keeps the stored bodies exactly those of the ids that are queued, being queued or claimed, each held once |
| `SettleProtocolSafety.StepKeepsInv` | backend/tunnel-manager/src/settle_worker.rs:79-158 | every step of a handler, a worker or the event indexer keeps the whole invariant: bodies exact, entries genuine, workers sound, nothing invented, nothing lost |
| `SettleProtocolSafety.EveryRunIsSafe` | backend/tunnel-manager/src/settle_worker.rs:79-158 | over every interleaving of handlers, any number of workers and the event indexer, each accepted tunnel was closed, was announced as failed, or is still asked for by a live entry; what workers close and announce goes back to an accepted body |
| `SettleProtocolSafety.EveryCloseWasAccepted` | backend/tunnel-manager/src/settle_worker.rs:94-117 | over every run, each close a worker is about to submit or record pays out an accepted body, field by field |
| `SettleProtocolSafety.RequeuedIntact` | backend/tunnel-manager/src/settle_worker.rs:138-153 | an entry put back after a transient verdict carries the header and the body of the one it replaces |
| `SettleProtocolSafety.QuietMeansDecided` | backend/tunnel-manager/src/settle_worker.rs:79-158 | when nothing is queued or claimed, every accepted tunnel was closed or announced as failed and no body is left |
| `SettleProtocolSafety.ClosedIdIsTheTunnel` | backend/tunnel-manager/src/settle_worker.rs:94-101 | an id that was ever shown closed, by a worker or by the indexer, and under which an entry is queued, is the tunnel that entry is about, so dropping the entry is right |
| `SettleProtocolSafety.OneTunnel` | backend/tunnel-manager/src/routes.rs:457-467 | tunnels whose ids normalize alike are one tunnel |
| `SettleProtocolSafety.RepliesExactly` | backend/tunnel-manager/src/routes.rs:434-479 | bad without a good header, a mismatch when the path is not the tunnel up to spelling, settled already when the registry shows the path closed, accepted otherwise |
| `SettleProtocolSafety.SortDecides` | backend/tunnel-manager/src/settle_worker.rs:90-110 | a repeated or closed id is dropped with its body, an unreadable header is announced as failed and dropped, every other close is kept in order |
| `SettleProtocolSafety.BodiesUnchanged` | backend/tunnel-manager/src/settle_queue.rs:62-76 | no step overwrites a stored body |
| `SettleWorker.SubmitCloseBatch` | backend/tunnel-manager/src/sui.rs:358-387 | resolve, read the epoch, then split-submit: one verdict per close on every path, and how many node calls were made |
| `SettleWorker.ReadsDecideFirst` | backend/tunnel-manager/src/sui.rs:365-387 | the first call names the tunnel of every close, the second reads the epoch, and only then is anything submitted; a fault of either is the verdict of every close |
| `SettleWorker.VerdictCameFromTheNode` | backend/tunnel-manager/src/sui.rs:358-387 | each verdict was given by the node in one of the calls made: to the tunnels of all closes, to the epoch read, or to a sub-batch that held the close |
| `SettleWorker.BatchIsolatedExactly` | backend/tunnel-manager/src/sui.rs:358-387 | for up to 128 closes (split depth 7) and a chain that rejects exactly the transactions holding poison: every close gets a verdict it deserves if and only if neither the resolution nor the epoch read is refused, or there is no good close |
| `SettleWorker.FoldEvents` | backend/tunnel-manager/src/sui.rs:783-815 | folding a page of chain events is exactly the observations of the state machine, however late the events, and leaves each tunnel as the last event about it says: closed by the two closing kinds only |
| `SettleWorker.InMemorySettleQueue.constructor` | backend/tunnel-manager/src/settle_queue.rs:53-60 | a new queue is empty |
| `SettleWorker.InMemorySettleQueue.Enqueue` | backend/tunnel-manager/src/settle_queue.rs:62-76 | a fresh id, the entry at the back, the body under the id, nothing else changed |
| `SettleWorker.InMemorySettleQueue.Claim` | backend/tunnel-manager/src/settle_queue.rs:78-98 | the first entries up to the maximum, in order, leave the queue; bodies stay |
| `SettleWorker.InMemorySettleQueue.Body` | backend/tunnel-manager/src/settle_queue.rs:100-102 | the stored body, if any |
| `SettleWorker.InMemorySettleQueue.Ack` | backend/tunnel-manager/src/settle_queue.rs:104-110 | drops exactly the bodies of the given ids |
| `SettleWorker.SortClaim` | backend/tunnel-manager/src/settle_worker.rs:90-110 | the loop over a claim is the sequence of sort steps of the state machine |
| `SettleWorker.RecordVerdicts` | backend/tunnel-manager/src/settle_worker.rs:119-155 | the loop over the verdicts is the sequence of record and push steps |
| `SettleWorker.DrainOnce` | backend/tunnel-manager/src/settle_worker.rs:79-158 | one cycle on the queue, registry and bus objects is exactly the machine run `Drain` |
| `SettleDrain.DrainIsARun` | backend/tunnel-manager/src/settle_worker.rs:79-158 | a drain cycle is a run of the state machine, so every result about runs applies to it |
| `SettleDrain.DrainKeepsInv` | backend/tunnel-manager/src/settle_worker.rs:79-158 | a drain cycle keeps the protocol invariant |
| `SettleDrain.DrainReports` | backend/tunnel-manager/src/settle_worker.rs:85-117 | a drain reports the closes of its batch, makes node calls only for a batch that is not empty, and with nothing to claim does nothing |
| `SettleDrain.ChainSeesAccepted` | backend/tunnel-manager/src/settle_worker.rs:114-117 | in every transaction a drain submits, each close has the tunnel, balances, signatures, time and root of an accepted body |
| `SettleDrain.DrainProgresses` | backend/tunnel-manager/src/settle_worker.rs:85-157 | a drain of a waiting queue uses a node call or shortens the queue, and shortens it once the node is no longer busy |
| `SettleDrain.DrainAll` | backend/tunnel-manager/src/settle_worker.rs:85-157 | draining until empty ends whenever the node is busy only finitely often; every accepted tunnel is then closed or failed, exactly as it deserves for batches up to 128 |
| `SettleDrain.TunnelTwiceExactlyWhenAliased` | backend/tunnel-manager/src/settle_worker.rs:94-110 | a batch holds a tunnel twice if and only if the claim holds that open tunnel under two spellings of its id |
| `SettleDrain.TwoSpellingsAccepted` | backend/tunnel-manager/src/routes.rs:457-470 | the handler accepts every valid body under its tunnel id and under the same id without its prefix |
| `SettleDrain.AliasedBatchReached` | backend/tunnel-manager/src/settle_worker.rs:94-110 | from every quiet start, such a body sent twice ends in a batch that holds its tunnel twice |
| `SettleStateful.GoodIsSettled` | backend/tunnel-manager/src/settle_batch.rs:28-64 | on a chain where a tunnel closes once: up to 2^depth closes, every tunnel that can close is settled by one of its closes |
| `SettleStateful.SettledOnlyOnce` | backend/tunnel-manager/src/settle_batch.rs:28-64 | and by no other of them |
| `SettleStateful.BothVerdictsExactly` | backend/tunnel-manager/src/settle_batch.rs:28-64 | such a tunnel gets a rejection beside its settlement if and only if the batch holds it twice |
| `SettleStateful.ClosedAndFailedExactly` | backend/tunnel-manager/src/settle_worker.rs:79-158 | one drain of up to 128 closes on such a chain, nothing refused: a good tunnel of the batch ends closed, and ends announced as failed too if and only if the batch holds it twice |
| `SettleStateful.ClosedAndFailedReached` | backend/tunnel-manager/src/settle_worker.rs:119-137 | from every quiet start, a body sent under two spellings and drained on such a chain (the pair rejected, the right close settled, the left one rejected) ends with its tunnel both closed and announced as failed |
| `SettleRegistry.ShowsLatestWrite` | backend/tunnel-manager/src/sui.rs:783-815 | over every run the registry shows a tunnel closed if and only if the latest write about it, by a worker or the indexer, closed it |
| `SettleRegistry.ReopenedExactly` | backend/tunnel-manager/src/sui.rs:783-815 | a tunnel that was ever closed shows as open if and only if the latest write about it says something else |
| `SettleRegistry.ResubmittedExactly` | backend/tunnel-manager/src/settle_worker.rs:94-101 | an entry of a tunnel that was ever closed, first of its id in the claim, is submitted again if and only if it is queued under another spelling or the latest write about the tunnel is not a close |
| `SettleRegistry.SettledIsSubmittedAgain` | backend/tunnel-manager/src/settle_worker.rs:94-101 | from every quiet start, a tunnel is settled, a late event shows it active, and the same body sent again is in a batch again |
| `ExplorerConfluence.AlwaysSound` | backend/explorer/src/handler.rs:173-200 | in every prefix of every interleaving, rows are those of events, address columns hold the declared values, link columns hold a link that was published for the transaction, and the settled counter counts the settled rows |
| `ExplorerConfluence.UpsertCounts` | backend/explorer/migrations/0001_settlement/up.sql:34-48 | the insert trigger counts each settled row once, however often it is upserted |
| `ExplorerMerge.UpsertFills` | backend/explorer/src/handler.rs:180-200 | a row that is there keeps what it has; a repeated event only fills addresses it lacks |
| `ExplorerMerge.EnrichesOnly` | backend/explorer/src/handler.rs:213-239 | enrichment touches only settled rows without addresses, of the given tunnels, and gives each both addresses of an opened row of its tunnel |
| `ExplorerMerge.DrainsExactly` | backend/explorer/src/handler.rs:49-58 | a drain deletes exactly the links of the given digests that found a row, and fills from them only what those rows lack |
| `ExplorerConfluence.ExecKeepsLink` | backend/explorer/src/handler.rs:49-67 | no statement changes a link column that is set |
| `ExplorerConfluence.FullyAddressed` | backend/explorer/src/handler.rs:213-239 | when all commits are done, every settled row of an opened tunnel has that tunnel's addresses, whichever committed first |
| `ExplorerConfluence.FullyLinked` | backend/explorer/src/handler.rs:49-67 | when all are done, every row of a settling transaction has a link in each column for which one was published |
| `ExplorerConfluence.NothingWaits` | backend/explorer/src/handler.rs:241-255 | no link waits for a transaction that has a settled row |
| `ExplorerConfluence.UnmatchedWaits` | backend/explorer/src/bin/indexer.rs:150-187 | the links of a transaction without rows are kept for a later drain, in each column one of those published |
| `ExplorerConfluence.FinalTable` | backend/explorer/src/handler.rs:203-255 | with links only for transactions that settle, contradicting or not, every finished run ends with exactly the rows of the events, their addresses, a published link in each column that has one, and the exact count |
| `ExplorerConfluence.Converges` | backend/explorer/src/handler.rs:203-255 | if no link is for a transaction that settles nothing and no two contradict each other: after any interleaving of commits in any grouping, repeats, abandoned attempts and proof messages, the database equals one function of events and messages |
| `ExplorerConfluence.OrderMatters` | backend/explorer/src/handler.rs:241-255 | a link for a transaction whose rows settle nothing ends differently in two orders |
| `ExplorerConfluence.AlwaysUniform` | backend/explorer/src/handler.rs:49-67 | in every prefix of every interleaving, all rows of a transaction have the same links |
| `ExplorerConfluence.AtMostOneOwnProof` | backend/tunnel-manager/src/settle_worker.rs:119-127 | so of two tunnels settled by one transaction, with different links published for them, at most one shows its own, at any time |
| `ExplorerConfluence.FirstWins` | backend/explorer/src/handler.rs:49-67 | on rows the first link drained stays |
| `ExplorerConfluence.LastWins` | backend/explorer/src/handler.rs:58-67 | without rows the last link recorded stays |
| `ExplorerConfluence.DisagreementMatters` | backend/explorer/src/handler.rs:49-67 | two contradicting links for one transaction make the outcome depend on the order, with rows or without |
| `ExplorerConfluence.OneBatchTwoProofs` | backend/tunnel-manager/src/settle_worker.rs:119-127 | a batch that settles two tunnels, each with an archived body of its own: the outcome depends on the order |
| `ExplorerConfluence.ConfluentExactly` | backend/explorer/src/handler.rs:203-255 | the outcome is independent of order if and only if no link is published for a transaction whose indexed rows settle nothing and no two links for one transaction contradict each other |
| `ChunkKeys.ChunkOrder` | backend/transcript-store/src/lib.rs:100-104 | below 10^8 chunks key order is chunk order |
| `ChunkKeys.KeysByName` | backend/transcript-store/src/lib.rs:86-123 | the documented keys of chunks, manifest and archive, however many slashes the prefix ends in |
| `ChunkKeys.OrderBreaks` | backend/transcript-store/src/lib.rs:100-104 | chunk 10^8 sorts before chunk 10^8 - 1 |
| `ChunkKeys.ListedInOrderExactly` | backend/transcript-store/src/lib.rs:355-363 | the listing is in recording order if and only if there are at most 10^8 chunks |
| `ChunkKeys.ChunkKeyInjective` | backend/transcript-store/src/lib.rs:100-104 | one key, one (tunnel, number), for every number |
| `ChunkKeys.ManifestKeyInjective` | backend/transcript-store/src/lib.rs:106-109 | one manifest key per tunnel |
| `ChunkKeys.ChunkIsNoManifest` | backend/transcript-store/src/lib.rs:100-109 | no chunk key is a manifest key |
| `ChunkKeys.ArchiveKeyApart` | backend/transcript-store/src/lib.rs:90-92 | an archived body never lands on a chunk or a manifest |
| `ChunkKeys.ListSelectsTheTunnel` | backend/transcript-store/src/lib.rs:111-123 | the list prefix of a slash-free tunnel matches exactly that tunnel's chunk keys |
| `SettleEntries.DecodeEntries` | sui-tunnel-ts/src/proof/settleBinary.ts:80-99 | the decoding loop, with its two truncation errors |
| `SettleEntries.DecodeInvertsEncode` | rust/engine/tunnel-core/src/wire.rs:117-130 | decoding the concatenated entries gives the entries |
| `SettleEntries.EncodeAllConcat` | rust/engine/tunnel-core/src/wire.rs:112-114 | encodings of runs of entries concatenate |
| `TranscriptStore.Assemble` | backend/transcript-store/src/lib.rs:284-321 | the fetch and join loops compute `Assembled`: all chunks present and the lengths adding up, or Incomplete |
| `TranscriptStore.AssembledExactOrIncomplete` | backend/transcript-store/src/lib.rs:284-321 | with genuine chunks the read is the whole recorded transcript exactly when none is missing, and Incomplete otherwise |
| `TranscriptStore.AssembledExactly` | backend/transcript-store/src/lib.rs:284-321 | whatever is fetched: a transcript assembles if and only if every chunk is there and together they have the length of the manifest, and is then the chunks in order; otherwise it is incomplete |
| `TranscriptStore.S3TranscriptStore.PutChunk` | backend/transcript-store/src/lib.rs:411-423 | stores one chunk and changes no other chunk and no manifest of any tunnel; the bucket stays well kept |
| `TranscriptStore.S3TranscriptStore.Seal` | backend/transcript-store/src/lib.rs:425-443 | stores one manifest and changes no chunk and no other manifest; the bucket stays well kept |
| `TranscriptStore.S3TranscriptStore.ReadSealed` | backend/transcript-store/src/lib.rs:458-467 | a sealed transcript is read by its manifest's exact count |
| `TranscriptStore.S3TranscriptStore.ReadListed` | backend/transcript-store/src/lib.rs:323-364 | an unsealed transcript reads as the stored chunks in increasing number, all of them and nothing else |
| `TranscriptStream.S3StreamingRecorder.constructor` | backend/transcript-stream/src/lib.rs:196-212 | a new recorder has recorded nothing |
| `TranscriptStream.S3StreamingRecorder.Cut` | backend/transcript-stream/src/lib.rs:299-304 | the buffer becomes the next chunk, whole entries, and nothing recorded changes |
| `TranscriptStream.S3StreamingRecorder.Record` | backend/transcript-stream/src/lib.rs:268-328 | one more entry recorded, or none if the root refuses it; a chunk is cut exactly when there is an uploader and the buffer is large or old; the recorder takes the step of the state machine |
| `TranscriptStream.S3StreamingRecorder.Finish` | backend/transcript-stream/src/lib.rs:217-264 | the tail is the last chunk, the manifest counts all chunks and bytes; nothing is sealed without chunks or root; a second finish changes nothing in the store |
| `TranscriptStream.ConcatIsEncoding` | backend/transcript-stream/src/lib.rs:268-328 | the chunks joined in order are the encoding of all entries cut so far |
| `TranscriptStream.RoundTrip` | backend/transcript-stream/src/lib.rs:217-264 | recorded chunks under a manifest that counts them assemble to the encoding of the entries, which decodes to them |
| `TranscriptStream.FinishThenRead` | backend/transcript-stream/src/lib.rs:217-264 | finish, then read: exactly the encoding of what was recorded |
| `TranscriptStream.RecordThenRead` | backend/transcript-stream/src/lib.rs:217-328 | a whole match recorded entry by entry, its chunks put as they are cut, finished and read back: the encoding of its entries, which decodes to them |
| `TranscriptRollProofs.StepKeepsInv` | backend/transcript-stream/src/lib.rs:73-152 | every step of recorders, producers, dispatcher, puts, tails and seals keeps the whole invariant |
| `TranscriptRollProofs.StepConserves` | backend/transcript-stream/src/lib.rs:73-152 | every step keeps each cut chunk in exactly one place |
| `TranscriptRollProofs.StepStaysBounded` | backend/transcript-stream/src/lib.rs:34-41 | the queue stays within 512, puts within 32, the dispatcher's hand within 1, and nothing is dropped before the dispatcher ends |
| `TranscriptRollSafety.EveryRunKeepsInv` | backend/transcript-stream/src/lib.rs:73-152 | the invariant holds in every state of every run |
| `TranscriptRollSafety.EveryChunkOnce` | backend/transcript-stream/src/lib.rs:130-152 | in every run each chunk of each recorder is in exactly one of blocked, queued, in hand, being put, stored, failed, lost or tail, and nothing else is |
| `TranscriptRollSafety.FetchIsGenuine` | backend/transcript-stream/src/lib.rs:130-152 | whatever is fetched under a number, at any time, is the recorder's chunk of that number |
| `TranscriptRollSafety.ReadExactOrIncomplete` | backend/transcript-store/src/lib.rs:284-321 | manifest read at one time, chunks at any others: exactly the recorded entries up to the sealed count if all chunks were there, Incomplete otherwise |
| `TranscriptRollSafety.CountCoversAll` | backend/transcript-stream/src/lib.rs:240-263 | a count with nothing buffered seals everything recorded |
| `TranscriptRollSafety.Barrier` | backend/transcript-stream/src/lib.rs:91-96 | once the dispatcher has ended, every chunk accepted before the drain signal is stored or failed |
| `TranscriptRollSafety.SettledSurvivesTheRoll` | backend/transcript-stream/src/lib.rs:110-125 | a match that was sealed before the signal reads back whole after the drain, unless one of its own puts failed |
| `TranscriptProgress.StepRecords` | backend/transcript-stream/src/lib.rs:268-328 | every step keeps what each recorder was given, in order, and adds exactly what it gives |
| `TranscriptProgress.ReturnsTell` | backend/transcript-stream/src/lib.rs:130-152 | a put that lands stores its chunk under its number and nothing else, one that does not stores nothing; without an error it counts as stored, with one as failed |
| `TranscriptProgress.SealsTell` | backend/transcript-stream/src/lib.rs:240-263 | a manifest changes only when its seal lands, and is then the one that was counted |
| `TranscriptProgress.CanBeSealed` | backend/transcript-stream/src/lib.rs:217-264 | from wherever a match stands it can be finished, and is then sealed with all that was recorded |
| `TranscriptProgress.NothingToSeal` | backend/transcript-stream/src/lib.rs:240-254 | without a chunk or a root a finish ends with nothing sealed, and can be called again |
| `TranscriptProgress.CanDrain` | backend/transcript-stream/src/lib.rs:91-97 | after the signal the dispatcher can always end, and with no put failing has then stored everything under way and the whole queue; only what is queued while it waits for the last puts is dropped |
| `TranscriptProgress.CanStoreAll` | backend/transcript-stream/src/lib.rs:76-90 | before the signal it can always store everything it was given |
| `RpcLimiter.Corrected` | backend/tunnel-manager/src/sui_rpc.rs:96-113 | the corrected bounds are sane, sane ones are unchanged, and each other one is moved to the nearest sane value |
| `RpcLimiter.TransientHalves` | backend/tunnel-manager/src/sui_rpc.rs:122-130 | a failure halves the budget, not below the minimum and never upwards, and takes as many free permits as that, or all |
| `RpcLimiter.SuccessesCount` | backend/tunnel-manager/src/sui_rpc.rs:134-144 | successes below the threshold are only counted |
| `RpcLimiter.SuccessesGrow` | backend/tunnel-manager/src/sui_rpc.rs:134-144 | the threshold of successes in a row adds one to budget and free permits below the maximum, and changes nothing at it |
| `RpcLimiter.AimdLimiter.constructor` | backend/tunnel-manager/src/sui_rpc.rs:96-113 | the initial permits are the clamped start |
| `RpcLimiter.AimdLimiter.OnTransient` | backend/tunnel-manager/src/sui_rpc.rs:122-130 | the budget becomes its half or the minimum, never more than it was; the free permits fall by the cut, or to none |
| `RpcLimiter.AimdLimiter.OnSuccess` | backend/tunnel-manager/src/sui_rpc.rs:134-144 | one permit more when the threshold is reached below the maximum, otherwise none |
| `RpcLimiter.AimdLimiter.Acquire` | backend/tunnel-manager/src/sui_rpc.rs:146-152 | a free permit becomes held |
| `RpcLimiter.AimdLimiter.Release` | backend/tunnel-manager/src/sui_rpc.rs:225-227 | a held permit becomes free |
| `RpcLimiter.EveryRunIsSound` | backend/tunnel-manager/src/sui_rpc.rs:95-153 | over every run the budget is within [min(start, minimum), maximum], permits are the budget plus the shortfalls of past decreases, and there are none exactly when every decrease found enough free permits |
| `LimiterRaces.NeverWedged` | backend/tunnel-manager/src/sui_rpc.rs:95-153 | with callers interleaved between single atomic reads and writes, a permit always exists, an idle limiter has a free one, and the budget stays within its bounds |
| `LimiterRaces.AloneIsSequential` | backend/tunnel-manager/src/sui_rpc.rs:95-153 | a caller that runs alone through a call, whatever the others have begun, leaves the limiter as the operations one at a time do |
| `LimiterRaces.RaceLosesPermits` | backend/tunnel-manager/src/sui_rpc.rs:122-130 | interleaved, permits need not match the budget: two concurrent failures leave two permits for a budget of four |
| `LimiterRaces.LossStays` | backend/tunnel-manager/src/sui_rpc.rs:134-144 | with the budget at its maximum no schedule without a decrease changes permits or budget, so a loss stays |
| `LimiterRaces.RegainedExactly` | backend/tunnel-manager/src/sui_rpc.rs:122-144 | permits missing from an idle limiter at its maximum can come back, by some schedule, if and only if the minimum is below the maximum |
| `LimiterRaces.ExceedsTheMaximum` | backend/tunnel-manager/src/sui_rpc.rs:95-153 | unless minimum, start and maximum are equal, some schedule of one more caller than the maximum has them all in flight |
| `LimiterRaces.MaximumHoldsExactly` | backend/tunnel-manager/src/sui_rpc.rs:82-85 | calls in flight stay within the maximum, for every number of callers and every interleaving of their single steps, if and only if minimum, start and maximum are equal |
| `LimiterRaces.DefaultsExceed` | backend/tunnel-manager/src/sui_rpc.rs:67-80 | with the default settings, 17 calls in flight under a maximum of 16 |
| `LimiterRaces.ThreeInFlightOfTwo` | backend/tunnel-manager/src/sui_rpc.rs:134-144 | two racing successes put three calls in flight under a minimum and maximum of two |
| `RpcCalls.RetriedExactly` | backend/tunnel-manager/src/sui_rpc.rs:34-50 | transient are exactly the unanswered, the half-read and 408, 429 and 5xx, with the Retry-After of the answer; only a 2xx answer without an error field succeeds |
| `RpcCalls.AnswersMean` | backend/tunnel-manager/src/sui_rpc.rs:239-273 | a success gives exactly the result field, or null without one; an error field, another failure status and unreadable text are rejections with their text; a transient one carries the text too |
| `RpcCalls.CeilingDoubles` | backend/tunnel-manager/src/sui_rpc.rs:192-200 | the ceiling is the base at first and doubles with each attempt up to the cap, twenty times at most |
| `RpcCalls.FailuresHalve` | backend/tunnel-manager/src/sui_rpc.rs:122-130 | k failures in a row halve the budget k times, down to the minimum |
| `RpcCalls.BackoffBounds` | backend/tunnel-manager/src/sui_rpc.rs:192-206 | ceilings never shrink and stop at the cap, every wait within reach of the clock is possible and none beyond, Retry-After is waited out and wins exactly when no jitter can exceed it |
| `RpcCalls.Call` | backend/tunnel-manager/src/sui_rpc.rs:208-237 | the meaning of the last response; every earlier one was retried, and the last only if the retries are spent; the backoff between attempts, every permit returned, the limiter told of each outcome |
| `Cursors.ParseInvertsSigned` | backend/shared/src/lib.rs:106-106 | a rendered 64-bit number parses back and has no colon |
| `Cursors.ParsesExactly` | backend/shared/src/lib.rs:106-106 | exactly the numbers within 64 bits parse, with or without a sign |
| `Cursors.DecodesExactly` | backend/shared/src/lib.rs:104-110 | a token decodes if and only if it has a number before its first colon |
| `Cursors.DecodeInvertsEncode` | backend/shared/src/lib.rs:104-115 | decoding a cursor gives its key if and only if the digest has no colon |
| `Cursors.LegacyNeverReemits` | backend/shared/src/lib.rs:100-110 | a two-part cursor admits exactly the rows strictly below its time and digest |
| `SettlementList.Sort` | backend/shared/src/memory.rs:92-97 | a permutation in strictly descending (time, digest, tunnel) order |
| `SettlementList.ListsOnlyOnce` | backend/shared/src/memory.rs:92-97 | the descending listing of a set of rows is unique |
| `SettlementList.AdmitsExactly` | backend/shared/src/memory.rs:66-91 | a query admits exactly the rows of its tunnel, kind and address, each if it names one, strictly below its cursor |
| `SettlementList.PageSize` | backend/shared/src/memory.rs:98-109 | for a limit of 1 to 1000 a page has that many rows, or all admitted ones if fewer, and a next cursor if and only if there are more; other limits act as the nearer of the two |
| `SettlementList.ListInMemory` | backend/shared/src/memory.rs:61-114 | filter, sort, cursor and truncation give the reference page |
| `SettlementList.TopIsPrefix` | backend/shared/src/postgres.rs:76-84 | the ordered query with a row limit answers a prefix of the sorted rows |
| `SettlementList.ListFromDatabase` | backend/shared/src/postgres.rs:63-111 | fetching one row more than the limit gives the same page and cursor as sorting everything |
| `SettlementList.WalkVisitsAll` | backend/shared/src/memory.rs:61-114 | following cursors while rows are added and gaps filled: strictly descending, every matching row present at the start exactly once, only matching rows |
| `SettlementList.WalkFixed` | backend/shared/src/memory.rs:61-114 | on a fixed table the walk ends and lists exactly the matching rows, newest first |
| `SettlementList.Upgrade` | backend/shared/src/memory.rs:29-43 | present fields are kept and gaps are filled |
| `SettlementList.UpgradeFills` | backend/shared/src/memory.rs:29-43 | each gap is filled from the same column of the new row, and nothing else changes |
| `SettlementList.InMemorySettlementStore.constructor` | backend/shared/src/memory.rs:13-22 | a new store is empty |
| `SettlementList.InMemorySettlementStore.Upsert` | backend/shared/src/memory.rs:26-52 | a new digest is inserted and counted if settled, a known one only has gaps filled; the counter counts settled rows |
| `SettlementList.InMemorySettlementStore.List` | backend/shared/src/memory.rs:61-114 | the page of the store's rows |
| `SettlementParity.UpsertAll` | backend/shared/src/memory.rs:26-52 | a sequence of upserts leaves the in-memory store with the rows and the counter of its specification |
| `SettlementParity.RowsAgreeExactly` | backend/shared/src/memory.rs:1-8 | after every sequence of upserts the in-memory store and the database hold the same rows if and only if no two of the rows share a digest under different tunnels |
| `SettlementParity.CountersAgreeExactly` | backend/shared/src/memory.rs:44-51 | the two settled counters agree if and only if no settled row was new to the database while its digest was known to memory |
| `SettlementParity.TwoTunnelsCollapse` | backend/shared/src/memory.rs:26-52 | a transaction that settles two tunnels: two rows counted in the database, one in memory |
| `TpsHistory.PeakTpsPoints` | backend/explorer/src/api.rs:208-232 | the bucket map yields the rollup: per bucket the first sample of the greatest eligible rate, in bucket order |
| `TpsHistory.RateIsRise` | backend/explorer/src/api.rs:221-226 | a rate times its time is the rise, and zero for a counter that went back |
| `TpsHistory.TimesIncrease` | backend/explorer/src/api.rs:208-232 | points come in strictly increasing time, whatever the order of the samples |
| `TpsHistory.NothingHidden` | backend/explorer/src/api.rs:198-232 | no eligible rate is above all points |
| `TpsHistory.NothingMadeUp` | backend/explorer/src/api.rs:198-232 | every point is an eligible rate at its time |
| `TpsHistory.RollupUnique` | backend/explorer/src/api.rs:208-232 | the rollup is unique |
| `TpsQuery.BoundsAreTight` | backend/explorer/src/api.rs:237-281 | the range is cut to what is retained, the stride is the least that fits the target, the fetch is never coarser than the display |
| `TpsQuery.BoundsCover` | backend/explorer/src/api.rs:266-281 | without both ends a query covers the trailing window, clamped, an hour by default; with both it is cut to what is retained at each end |
| `TpsQuery.AtMostTargetExactly` | backend/explorer/src/api.rs:243-281 | the rollup of a series in a range has at most 1000 points, for every series, if and only if at most 1000 buckets meet the range |
| `TpsQuery.AtMostOneMore` | backend/explorer/src/api.rs:266-281 | every query returns at most 1001 points |
| `TpsChart.FullResolution` | backend/shared/src/postgres.rs:121-142 | at one second a group the answer is the stored samples of the range |
| `TpsChart.GroupEndIsStored` | backend/shared/src/postgres.rs:127-134 | for a counter that never goes back each grouped answer is the last stored sample of its group |
| `TpsPoints.AtMostPointSpan` | backend/explorer/src/api.rs:283-298 | for every table, the points of a fetched and rolled-up range are at most the buckets that meet it past its first fetch group |
| `TpsPoints.PointSpanReached` | backend/explorer/src/api.rs:283-298 | and some table is answered with exactly so many |
| `TpsPoints.QueryAtMostTargetExactly` | backend/explorer/src/api.rs:262-298 | for every query over a range of positive length: it answers every table with at most 1000 points if and only if at most 1000 buckets meet the range past its first fetch group |
| `TpsPoints.OneMoreIsReached` | backend/explorer/src/api.rs:277-280 | at any time, every retained range of 2000 seconds from an even second on can be answered with 1001 points |
| `TpsPoints.CoarseFetchSparesOne` | backend/explorer/src/api.rs:262-298 | a range of 200000 seconds that meets 1001 buckets and, fetched by twos, is never answered with more than 1000 points |
| `TpsChart.PeakIn` | frontend/src/backend/useTpsHistory.ts:26-32 | the first of the greatest rates of a run |
| `TpsChart.Downsample` | frontend/src/backend/useTpsHistory.ts:22-34 | the first peak of each run of points, or all points when they are few |
| `TpsChart.BucketSize` | frontend/src/backend/useTpsHistory.ts:24-24 | the least run length for which `target` runs cover all points |
| `TpsChart.AtMostTarget` | frontend/src/backend/useTpsHistory.ts:16-24 | at most `target` points for a positive target |
| `TpsChart.OrderKept` | frontend/src/backend/useTpsHistory.ts:22-34 | the points kept are in their order |
| `TpsChart.PeakKept` | frontend/src/backend/useTpsHistory.ts:16-34 | no point is above all points kept |
| `TpsChart.ChartIsGenuine` | backend/explorer/src/api.rs:208-232 | the chart shows only rates of the fetched series |
| `TpsChart.ChartInOrder` | backend/explorer/src/api.rs:208-232 | the chart is in increasing time |
| `TpsChart.FetchedPeaksReachTheChart` | backend/explorer/src/api.rs:283-297 | for every range, every rate of the fetched series is reached by a point of the chart |
| `TpsChart.PeaksSurviveExactly` | backend/explorer/src/api.rs:234-239 | for every query, every rate between neighbouring stored samples reaches the chart, for every table, if and only if the range is at most 100000 seconds |
| `TpsChart.BurstIsHalved` | backend/explorer/src/api.rs:234-239 | at any time, a retained range of 200000 seconds: a burst of 1000 in one second shows as at most 500 |
| `RateWindow.RateWindow.constructor` | backend/tunnel-manager/src/stats.rs:30-35 | a new window has no readings |
| `RateWindow.RateWindow.Observe` | backend/tunnel-manager/src/stats.rs:41-61 | the deque is the whole history filtered to the window, and the rate is that of its ends |
| `RateWindow.DropOld` | backend/tunnel-manager/src/stats.rs:43-50 | eviction from the front leaves exactly the recent readings, never none |
| `RateWindow.Rate` | backend/tunnel-manager/src/stats.rs:51-60 | the rise over the time between the first and the last reading; zero for one reading, no time, or a counter that went back |
| `RateWindow.RateIsBetween` | backend/tunnel-manager/src/stats.rs:41-61 | for a counter that never goes back the rate lies between the least and the greatest interval rate |
| `CoinFund.SortByBalance` | wallet-pool/src/fund.rs:219-220 | a descending permutation of the coins |
| `CoinFund.SelectCoins` | wallet-pool/src/fund.rs:213-235 | the loop takes the greedy selection of the sorted coins |
| `CoinFund.FewestCoins` | wallet-pool/src/fund.rs:213-235 | a selection covers the amount and no covering set of the wallet's coins is smaller |
| `CoinFund.NoneExactly` | wallet-pool/src/fund.rs:223-234 | no selection if and only if the coins are short, or the running sum leaves 64 bits before the amount is met |
| `CoinFund.NoneWhenShort` | wallet-pool/src/fund.rs:213-235 | with a total within 64 bits, no selection if and only if the total is short |
| `CoinFund.RefusedThoughCovered` | wallet-pool/src/fund.rs:227-227 | a wallet that covers the amount and is refused |
| `CoinFund.Plan` | wallet-pool/src/fund.rs:60-140 | invalid exactly for no recipients, a zero amount or an overflow; insufficient exactly when coins or gas are short; otherwise one transfer of the amount to each recipient, and coins that cover their sum and, for SUI, the gas |
| `CoinFund.FundBatch` | wallet-pool/src/fund.rs:171-211 | the calls made are the recipients cut into full chunks and a last one; on success all are paid, once and in order; on an error exactly those before the failing chunk, and that chunk exactly when its transaction went through and the wait for it failed |
| `Sponsorship.ValidateSponsorable` | backend/tunnel-manager/src/sui.rs:1078-1178 | the loops return the refusal of the first command that has one, else of the first input, else none |
| `Sponsorship.CommandAcceptedExactly` | backend/tunnel-manager/src/sui.rs:1021-1033 | a command passes if and only if it is within the policy; the shape-by-shape gas check is membership among all arguments |
| `Sponsorship.ListedCalls` | backend/tunnel-manager/src/sui.rs:1089-1143 | the calls paid for are exactly the listed tunnel, coin, example, share and collectible functions, and which of them must name the stake coin |
| `Sponsorship.AcceptedExactly` | backend/tunnel-manager/src/sui.rs:1053-1062 | accepted if and only if every command is within the policy and every withdrawal is the sender's in the stake coin |
| `Sponsorship.Distributes` | backend/tunnel-manager/src/sui.rs:1085-1159 | the verdict on concatenated commands is the first part's refusal, else the second's |
| `Sponsorship.GasCoinIsSafe` | backend/tunnel-manager/src/sui.rs:1017-1020 | whatever its commands do, an accepted transaction leaves the gas argument alone and computes nothing that depends on it |
| `Sponsorship.IndependentExactly` | backend/tunnel-manager/src/sui.rs:1021-1033 | commands are independent of the gas coin for every meaning if and only if none refers to it |
| `Sponsorship.ValidateKind` | backend/tunnel-manager/src/sui.rs:1185-1212 | the same verdict, and the call targets |
| `Sponsorship.TargetsExact` | backend/tunnel-manager/src/sui.rs:1198-1211 | the targets are exactly those called, as package, module and function, without repeats |
| `Sponsorship.TargetsFirstSeen` | backend/tunnel-manager/src/sui.rs:1198-1211 | the targets are in the order first called |
| `Sponsorship.BudgetScales` | backend/tunnel-manager/src/sui.rs:990-992 | the gas budget never shrinks with size, fits 64 bits, and is additive within 1024 commands |
| `SponsorFunds.BuildSponsoredTx` | backend/tunnel-manager/src/sui.rs:969-1015 | refuses other kinds than programmable ones, and those outside the policy with its refusal; otherwise wraps the kind with sender, gas owner and budget |
| `SponsorFunds.SafeExactly` | backend/tunnel-manager/src/sui.rs:1160-1178 | for every transaction: on every ledger that admits it, whatever its commands do, the gas owner loses at most the gas charge and none of its objects, if and only if no command refers to the gas argument and no input is the gas owner's |
| `SponsorFunds.SponsoredIsSafeExactly` | backend/tunnel-manager/src/sui.rs:424-429 | for every sponsored transaction, the sponsor pays gas only if and only if it is not the sender, or the transaction uses nobody's funds |
| `SponsorFunds.SponsorPaysExactlyGas` | backend/tunnel-manager/src/sui.rs:996-1003 | a sponsor that is not the sender pays exactly the gas: beside deposits, its SUI falls by the charge and no other balance changes |
| `SponsorFunds.NeverTheSponsorsExactly` | backend/tunnel-manager/src/sui.rs:424-452 | the stake is never the sponsor's, for every kind, if and only if the sender is not the sponsor |
| `SponsorFunds.SponsorAsSender` | backend/tunnel-manager/src/sui.rs:430-452 | the failing request: the sponsor as sender of a kind that withdraws from its sender is sponsored, and draws on the sponsor for more than gas |

## Left out

- The Redis settle queue and its crash recovery, HTTP and streaming handlers, configuration, and the user interface.
- Building, signing and dry-running transactions, and reading chain objects: the node's verdict is a parameter.
- SettleWorker.RecordVerdicts: archiving the body and publishing the proof after a close (S3, Walrus, the live feed) are not modelled.
- SettleWorker.DrainOnce: the same, and the Redis queue's blocking claim.
- SettleDrain.DrainAll: one worker, no requests meanwhile, and in its last clause a chain whose bad tunnels do not change; when a tunnel ends both closed and failed is stated for one drain (`SettleStateful.ClosedAndFailedExactly`), not across many workers.
- SettleDrain.TunnelTwiceExactlyWhenAliased: the claim is sorted without registry changes in between.
- TranscriptStore.S3TranscriptStore.ReadSealed: storage errors other than a missing object are not modelled.
- The ids in chain events are taken to be spelled canonically, as the node renders them.
- The registry's active and settled counters, and the feed of recent events.
- The Merkle root of a transcript: the manifest's root is a parameter, and so is the root recorder's refusal of an entry.
- Wrap-around of the 32-bit chunk number and the 64-bit byte total of a transcript, of the 64-bit queue id, and of the differences of 64-bit counters in rates.
- Floating-point rounding of rates: they are real numbers.
- Mutexes inside one recorder or queue: each method is one step, and calls interleave between methods only in the state machines.
- The drain timeout of the uploader's shutdown: the results speak of a dispatcher that has ended.
- RpcCalls.Call: a permit is free when it asks for one; waiting for a permit is covered by the interleaved limiter.
- SettlementList.ListFromDatabase: the database compares text byte by byte; another collation is not modelled.
- TpsChart.Downsample: the target is a natural number; with a negative one the source's loop would not end.
- ExplorerConfluence.Converges: each SQL statement is one atomic step; locking and transaction isolation below that are not modelled.
- CoinFund.Plan: addresses that do not parse, and the transaction that carries the payment, are not modelled.
- Sponsorship.GasCoinIsSafe: Move calls are arbitrary functions of their argument values; objects they could reach by other means are not modelled.
- The lists of sponsored example functions: they are part of the configuration parameter.
- SettleStateful.ClosedAndFailedExactly: one drain, its claim sorted without registry changes in between.
- SponsorFunds.SafeExactly: objects owned by other objects and objects sent to an address are not modelled; a transaction that the chain aborts after charging gas counts as one that did nothing else.
- `capSeries`, per-game counters, faucet limits and address rendering.
