# CorpusKit, modelled and proved

CorpusKit is a retrieval engine with Swift and Rust ports that are meant to
agree.  This project models its core in Dafny and proves what that core is for:

- **Lifecycle** (`Corpus`, `CorpusRecall`, `CorpusRebuild`, `CorpusIngest`,
  `CorpusSources`, `FanOut`, `CorpusActor`): chunk rows, keyword postings,
  per-model vectors, the removed set, trained bases, maintained counts and the map
  from chunks to sources, under any run of ingest, batch ingest, import, remove,
  expunge, reindex and reopen.  `Corpus` defines each public call as a step on one
  state; `CorpusActor` is the object whose loops are proved to take exactly those
  steps; `CorpusRecall`, `CorpusRebuild`, `CorpusIngest` and `CorpusSources` hold
  the theorems: who is recalled, what a reindex, a restart, a batch and a first
  ingest leave, and to which source a hit resolves.
- **Drain protocol** (`IngestQueue`, `IngestRuns`, `IngestBlocked`, `IngestDrain`):
  jobs, sessions, leases and any number of drainers that crash, lose their lease,
  reclaim and retry.
- **Bundle store** (`BundleStore`): chunk rows, text scrubbing, Merkle roots.
- **Keyword index and source ranking** (`Bm25`, `Ranking`).
- **Counts and training** (`Cooccurrence`, `CooccurrenceProviders`, `TermCounts`,
  `ReducedVocab`, `Nmf`).
- **Persistence** (`BasisCodec`, `BasisStreams`, `ProviderBlobs`, `BlobLayouts`,
  `ProviderStreams`, `Restart`): formats as encoder, decoder and the values they
  can hold, where each byte goes, the writer and reader loops and the blob
  functions proved against them, and maintained counts across a restart.
- **Chunking and time stamps** (`Chunker`, `Calendar`, `Timestamps`).

`Ordering`, `Sums` and `Options` hold what several of these share.
`dafny verify dfyconfig.toml` checks the whole project.

## What the code does where its text says otherwise

These are proved; where a promise fails, with the exact condition under which it
holds.

- `basis_store.rs` calls its time stamps sortable as strings.  The parser accepts
  day 31 in every month, hours, minutes and seconds up to 99, and a sign in front
  of a field.  Of the digit-only stamps it accepts, exactly the canonical ones sort
  by time, and those past the last second of year 9999
  (`Timestamps.DigitsSortExactlyWhenCanonical`); of all strings it accepts, exactly
  those that parse to the second before the first canonical stamp after them
  (`Timestamps.SortsByTimeExactlyWhen`; for a first sign in the year and in a later
  field, `Timestamps.SignedYearSortsExactlyWhen` and
  `Timestamps.SignedFieldSortsExactlyWhen`).
- `bm25TopKBySource` and `floatNearest` say that fetching four times the limit
  leaves at least `limit` sources.  One long source can take the whole fetch; the
  promise holds for every scoring if and only if no smaller group of sources owns
  enough matching chunks (`Ranking.OverFetchSufficesExactlyWhen`).
- The comment in `floatNearest` says a far source is far even in its closest
  chunk; the code takes the least similar chunk, which makes the two directions
  exact duals.  The model follows the code (`Ranking.FarthestIsDualOfNearest`).
- Training an NMF provider after it was finalized moves its document count past
  the stored factors.  In every run, rebuilding its basis and reading any document's
  embedding stay in bounds if and only if no document with terms was trained since
  the last finalization, or there is no basis (`Nmf.RebuildExactlyWhenUpToDate`,
  `Nmf.AccessorInBoundsExactlyWhenUpToDate`).
- A drain worker reclaims once per mount.  A standby that held the lease before
  takes over from a crashed drainer without returning its "cur" jobs, and they
  stay "cur" through every run in which no drainer of the stream reclaims
  (`IngestRuns.TakeoverReclaimsExactlyWhenNew`, `IngestRuns.OrphanWaitsForReclaim`).
- The batch ingest is documented as identical to one ingest per item.  With every
  basis trained it is, except that it saves the maintained counts even when no
  item has any text (`CorpusRebuild.BatchSavesTheSameExactlyWhen`).
- Ingesting an expunged text again does not restore the stored row, so the next
  reindex embeds the empty text for it
  (`CorpusRebuild.ReindexEmbedsOwnTextUnlessScrubbed`).
- Ingesting a removed source again reactivates all of its stored chunks: the next
  reindex brings back vectors, but not postings, of its earlier versions
  (`CorpusRecall.LanesAgreeExactlyWhen`).  Those vectors answer no query before
  the corpus is opened again, because a reindex does not fill the map from chunks
  to sources that the removal emptied (`CorpusSources.EarlierVersionWaitsForReopen`,
  `CorpusSources.ReindexedChunkResolvesExactlyWhen`).
- The bundle store leaves the stored hash alone when it scrubs.  Rows from before
  the hash column have none, and scrubbing them changes the root that the next
  open computes (`BundleStore.ScrubSafeExactlyWhen`).
- The reduced vocabulary is not monotone at the vocabulary size: there it keeps
  hapaxes and goes back to encounter order, so it extends a smaller cap's list only
  if those terms were met first, best first
  (`ReducedVocab.ExtendsAtVocabularySizeExactlyWhen`).
- The keyword lane starts each source's maximum at zero, so a source whose scores
  are all negative is reported with zero (`Ranking.KeywordScoreIsBestExactlyWhen`).
- Every blob reader stops after its last field, so bytes after a blob are not
  looked at; the round trips are stated ahead of arbitrary further bytes.

## What is taken as given

Functions the code calls but does not define are parameters: the sentence
segmenter, the tokenizer, lower-casing, the generator behind the index vectors,
the NMF factorizer (only its output dimensions are assumed), float operations,
the query engine's build and query, leaf and interior hashes, providers' train,
embed and fold, and the order in which a table scan yields rows.  Content-addressed
chunk ids are the triple (source, offset, text), which the hashed id is assumed to
determine.  A 32-bit float is its bit pattern and float addition is given; only
`Restart.PatternsFollowIntegers` and `Restart.FoldRiIsTraining`, which tie the
float vectors to integer ones, assume that it adds integers exactly up to 2^24.
Each public corpus call is one atomic step that does not fail; crashes and
failures are modelled in the drain protocol.
QueueKit is not part of this model: of its replies it is assumed, as the comments
in `CorpusIngestQueue.swift` state, that they flip only rows that are "cur", that
one claim takes every available job of a stream under one session, and that a
reclaim touches one stream; replies do not fail.  Swift's `<` on source ids is
modelled as byte order.

## Model

| member | source | states |
|---|---|---|
| `CorpusRecall.NoResurrection` | packages/kits/CorpusKit/Sources/CorpusKit/CorpusKit.swift:1654-1659 | In every run, a source whose latest non-empty ingest or removal is a remove or expunge owns no posting and no vector, through any reindexes, first-ingest trainings, imports, reopens and ingests of other sources |
| `CorpusRecall.RemovedTracksHistory` | packages/kits/CorpusKit/Sources/CorpusKit/RemovedSourceStore.swift:76-116 | The removed set holds exactly the sources whose latest non-empty ingest or removal is a removal |
| `CorpusRecall.PostingsAreTheLiveChunks` | packages/kits/CorpusKit/Sources/CorpusKit/CorpusKit.swift:1045-1052 | After any run the keyword index holds exactly the chunks written since their source was last removed that have tokens, each under its tokens |
| `CorpusRecall.EmbeddedChunksStayFound` | packages/kits/CorpusKit/Sources/CorpusKit/CorpusKit.swift:1074-1120 | A chunk embedded since its source was last removed keeps a binary vector under every held model, whatever trainings, reindexes, imports and reopens follow |
| `CorpusRecall.ErasureIsPermanent` | packages/kits/CorpusKit/Sources/CorpusKit/CorpusKit.swift:2086-2094 | The chunk table holds exactly the chunks ever written; a chunk's text is its own until its source is expunged and empty for ever after, ingesting the same text again included |
| `CorpusRecall.LanesAgreeExactlyWhen` | packages/kits/CorpusKit/Sources/CorpusKit/CorpusKit.swift:1766-1825 | After a reindex the vector lane and the keyword lane agree on a chunk exactly when it is inactive, or live with tokens: old versions of a source removed and ingested again come back as vectors only |
| `CorpusRecall.ReindexFindsExactly` | packages/kits/CorpusKit/Sources/CorpusKit/CorpusKit.swift:1741-1825 | A reindex gives a vector under every model to exactly the stored chunks of sources not removed, and touches no posting |
| `CorpusRecall.StepKeepsQuiet` | packages/kits/CorpusKit/Sources/CorpusKit/CorpusKit.swift:2032-2064 | Every public call keeps all postings and vectors on stored chunks of sources that are not removed |
| `CorpusIngest.FirstIngestTrains` | packages/kits/CorpusKit/Sources/CorpusKit/CorpusKit.swift:1074-1120 | After a non-empty ingest every trainable model that had no basis persists and serves the from-scratch training on all chunks then active, the new ones included; every other slot is untouched |
| `CorpusIngest.IngestVectors` | packages/kits/CorpusKit/Sources/CorpusKit/CorpusKit.swift:1028-1191 | At every key of both lanes: a model trained by the ingest holds exactly the embeddings of the active chunks' stored texts under that basis, any other the embeddings of the document's chunks on top of what it held |
| `CorpusIngest.FirstBatchTrains` | packages/kits/CorpusKit/Sources/CorpusKit/CorpusKit.swift:1434-1627 | A batch trains the same models from scratch, once, on the chunks active after its last item, and no model if there are none |
| `CorpusIngest.BatchVectors` | packages/kits/CorpusKit/Sources/CorpusKit/CorpusKit.swift:1434-1627 | At every key of both lanes: a chunk of the batch holds the embedding of its own text under the basis served afterwards, filed by the last item that has it; all else is unchanged |
| `CorpusIngest.VectorsServeTheInstalledBasis` | packages/kits/CorpusKit/Sources/CorpusKit/CorpusKit.swift:1901-1990 | In every run each stored vector of either lane is the embedding of its chunk's own text (of no text only if its source was expunged after the first write) under the basis that serves queries now, and a model still without its first basis has no vector |
| `CorpusIngest.RemovalIsExact` | packages/kits/CorpusKit/Sources/CorpusKit/CorpusKit.swift:2032-2064 | In every run a removal takes exactly the source's postings and its vectors of both lanes under all models, and leaves every other row |
| `CorpusIngest.ActiveInScanOrder` | packages/kits/CorpusKit/Sources/CorpusKit/CorpusKit.swift:1654-1659 | The active chunks are all stored chunks of sources not removed, each once, in the order the table yields them |
| `CorpusIngest.TrainsOnUnscrubbedTexts` | packages/kits/CorpusKit/Sources/CorpusKit/CorpusKit.swift:1654-1659 | In every run a from-scratch training reads, in that order, the own text of each active chunk and the empty text of the scrubbed ones |
| `CorpusSources.SourceMapIsExact` | packages/kits/CorpusKit/Sources/CorpusKit/CorpusKit.swift:1045-1052 | In every run the source map holds exactly the chunks written since their source was last removed and those a later reopen found stored, each under the source it was chunked from |
| `CorpusSources.HitsResolve` | packages/kits/CorpusKit/Sources/CorpusKit/CorpusKit.swift:2181-2196 | In every run each posting, and each vector of a chunk ingested since its source was last removed, resolves to the source of its chunk |
| `CorpusSources.LiveIsMapped` | packages/kits/CorpusKit/Sources/CorpusKit/CorpusKit.swift:1045-1052 | By history alone: what was written since its source was last removed is mapped and stored |
| `CorpusSources.ReindexedChunkResolvesExactlyWhen` | packages/kits/CorpusKit/Sources/CorpusKit/CorpusKit.swift:1766-1825 | After a reindex the dense lane can find a chunk and resolve it if and only if it is active and mapped |
| `CorpusSources.EarlierVersionWaitsForReopen` | packages/kits/CorpusKit/Sources/CorpusKit/CorpusKit.swift:794-802 | For any text of a source that is removed and then ingested with another text: after the next reindex its own chunks have vectors but no source, and get one when the corpus is opened again |
| `CorpusSources.ReopenKeepsSourceMapExactlyWhen` | packages/kits/CorpusKit/Sources/CorpusKit/CorpusKit.swift:794-802 | A restart leaves the source map as it is if and only if every stored chunk is mapped |
| `CorpusSources.NewChunksAreStampedInPlace` | packages/kits/CorpusKit/Sources/CorpusKit/CorpusKit.swift:1251-1296 | A new chunk is stamped by its first place in its document, onwards from the corpus's clock, or from zero in the sharded import, and the clock moves by the document's chunks, or not at all |
| `CorpusSources.StampsAreDistinct` | packages/kits/CorpusKit/Sources/CorpusKit/CorpusKit.swift:1028-1032 | While one generator stamps all chunks, no two stored rows share a stamp |
| `CorpusRebuild.ReindexRebuilds` | packages/kits/CorpusKit/Sources/CorpusKit/CorpusKit.swift:1766-1825 | After a reindex every basis is the from-scratch training on the active chunks, and the vector table at every key is what embedding their stored texts under those bases gives, and nothing else |
| `CorpusRebuild.ReindexHistoryIndependent` | packages/kits/CorpusKit/Sources/CorpusKit/CorpusKit.swift:1741-1825 | Two histories that leave the same chunk rows and removed set end a reindex with the same bases, providers and vectors |
| `CorpusRebuild.ReindexIdempotent` | packages/kits/CorpusKit/Sources/CorpusKit/CorpusKit.swift:1741-1845 | Reindexing a second time at the same instant changes nothing at all |
| `CorpusRebuild.ReindexEmbedsOwnTextUnlessScrubbed` | packages/kits/CorpusKit/Sources/CorpusKit/CorpusKit.swift:1901-1990 | The vector a reindex gives an active chunk embeds the chunk's own text, except after an expunge that followed its first write: then it embeds the empty text, even if the text was ingested again |
| `CorpusRebuild.BatchIsIngestEach` | packages/kits/CorpusKit/Sources/CorpusKit/CorpusKit.swift:1420-1433 | Once every trainable model has a basis, the batch leaves the same chunks, removed set, postings, vectors, bases and maintained counts as one ingest per item |
| `CorpusRebuild.BatchSavesTheSameExactlyWhen` | packages/kits/CorpusKit/Sources/CorpusKit/CorpusKit.swift:1434-1627 | Saved counts included, batch and single form agree exactly when some item has chunks, the batch is empty, or nothing waited to be saved |
| `CorpusRebuild.ReopenTransparent` | packages/kits/CorpusKit/Sources/CorpusKit/CorpusKit.swift:889-923 | A restart keeps content, vectors, bases and served providers, and keeps the maintained counts exactly when they were saved |
| `CorpusRebuild.CountsSavedUnlessPending` | packages/kits/CorpusKit/Sources/CorpusKit/CorpusKit.swift:1678-1692 | Counts are saved after every run unless a non-empty import is still waiting for an ingest, batch or reindex |
| `CorpusRebuild.CountsFoldEachRowOnce` | packages/kits/CorpusKit/Sources/CorpusKit/CorpusKit.swift:1637-1645 | If no restart falls while import counts wait to be saved, there is one order naming every stored chunk exactly once such that every accumulator is what a chain of single folds over it leaves, and its document count is their number |
| `CorpusRebuild.StepKeepsServing` | packages/kits/CorpusKit/Sources/CorpusKit/CorpusKit.swift:889-923 | Every public call keeps each slot serving its persisted basis, or the untrained one, with an accumulator for exactly the trainable models |
| `CorpusActor.CorpusActor.Open` | packages/kits/CorpusKit/Sources/CorpusKit/CorpusKit.swift:725-813 | Opening resolves every slot against the stores and leaves the reopened state |
| `CorpusActor.CorpusActor.Ingest` | packages/kits/CorpusKit/Sources/CorpusKit/CorpusKit.swift:1028-1191 | The loops of a single ingest (write, first-ingest training, bounded fold-in) end in the state the ingest step defines, for every concurrency cap; what that state is, `CorpusIngest.FirstIngestTrains`, `CorpusIngest.IngestVectors`, `CorpusSources.SourceMapIsExact` and the recall results say |
| `CorpusActor.CorpusActor.IngestBatch` | packages/kits/CorpusKit/Sources/CorpusKit/CorpusKit.swift:1434-1627 | The batch (commit windows, bootstrap, slices, concurrent embed, scatter, row windows) ends in the state the batch step defines, for every cap of at least one and every completion order; what that state is, `CorpusIngest.FirstBatchTrains`, `CorpusIngest.BatchVectors` and `CorpusSources.SourceMapIsExact` say |
| `CorpusActor.CorpusActor.ImportSerial` | packages/kits/CorpusKit/Sources/CorpusKit/CorpusKit.swift:1384-1417 | The serial import ends in the state the import step defines |
| `CorpusActor.CorpusActor.ImportSharded` | packages/kits/CorpusKit/Sources/CorpusKit/CorpusKit.swift:1226-1379 | Sharded workers, one writer and per-shard merges end in the state of the plain item-by-item import |
| `CorpusActor.CorpusActor.Reindex` | packages/kits/CorpusKit/Sources/CorpusKit/CorpusKit.swift:1741-1845 | Concurrent training, install in slot order, batched re-embed and counts persistence end in the reindexed state |
| `CorpusActor.CorpusActor.Remove` | packages/kits/CorpusKit/Sources/CorpusKit/CorpusKit.swift:2032-2064 | Removing chunk by chunk and model by model, in any order, ends in the state the removal step defines |
| `CorpusActor.CorpusActor.Expunge` | packages/kits/CorpusKit/Sources/CorpusKit/CorpusKit.swift:2086-2094 | Scrub, then the same removal |
| `CorpusActor.CorpusActor.TrainMissingSlots` | packages/kits/CorpusKit/Sources/CorpusKit/CorpusKit.swift:1075-1113 | Exactly the trainable slots without a persisted basis are trained and re-embedded, on one snapshot of the active chunks; the others are returned for fold-in; what each slot and key then holds, `CorpusIngest.FirstIngestTrains` and `CorpusIngest.IngestVectors` say |
| `CorpusActor.RunIsTokenized` | packages/kits/CorpusKit/Sources/CorpusKit/CorpusKit.swift:1288-1302 | In every run each posting has tokens, which is all the sharded import asks of the state |
| `CorpusActor.MergeIsIndex` | packages/kits/CorpusKit/Sources/CorpusKit/CorpusKit.swift:1288-1302 | Merging shard postings without deleting gives the indexed postings, because a chunk without tokens never has a posting |
| `FanOut.BoundedConcurrentMap` | packages/kits/CorpusKit/Sources/CorpusKit/CorpusKit.swift:469-489 | For every cap of at least one and every completion order within a group, each result lands at its input's index |
| `FanOut.Slice` | packages/kits/CorpusKit/Sources/CorpusKit/CorpusKit.swift:1553-1561 | The slices are contiguous, non-empty, no longer than asked, and flatten back to the input |
| `FanOut.AtMostCapSlices` | packages/kits/CorpusKit/Sources/CorpusKit/CorpusKit.swift:1553-1554 | The ceiling slice length yields no more slices than workers |
| `FanOut.EmbedBatch` | packages/kits/CorpusKit/Sources/CorpusKit/CorpusKit.swift:1540-1596 | The sliced, concurrent, scattered embed yields exactly the rows of the plain loop over the items |
| `IngestRuns.DoneMeansIngested` | packages/kits/CorpusKit/Sources/CorpusKit/CorpusIngestQueue.swift:508-536 | In every interleaving of any number of drainers with crashes, lease takeover, reclaim, batch failure and per-job fallback, a done job decodes and either has empty text or was itself ingested, by the call of its own stream |
| `IngestBlocked.DoneMeansAStepIngestedIt` | packages/kits/CorpusKit/Sources/CorpusKit/CorpusIngestQueue.swift:508-536 | In terms of the run alone: a done job is empty, or some step of a drainer of its stream ingested it, in a batch, in the part of a failed batch that got through, or on its own |
| `IngestBlocked.IngestedIsWitnessed` | packages/kits/CorpusKit/Sources/CorpusKit/CorpusIngestQueue.swift:508-536 | A job is recorded as ingested if and only if such a step is in the run |
| `IngestQueue.StepStaysSafe` | packages/kits/CorpusKit/Sources/CorpusKit/CorpusIngestQueue.swift:326-400 | The invariant behind it: rows still cur under a drainer's session are among the jobs it holds, and a job is replied done only when empty or ingested, stale drainers included |
| `IngestRuns.JobsAreConserved` | packages/kits/CorpusKit/Sources/CorpusKit/CorpusIngestQueue.swift:508-536 | Over every run a job is never lost or altered, and done and blocked are final |
| `IngestRuns.FinishedPassHoldsNothing` | packages/kits/CorpusKit/Sources/CorpusKit/CorpusIngestQueue.swift:364-383 | A pass that comes to its end leaves no row cur under its session |
| `IngestRuns.TakeoverReclaimsExactlyWhenNew` | packages/kits/CorpusKit/Sources/CorpusKit/CorpusIngestQueue.swift:438-467 | A takeover returns the cur jobs of its stream to new if and only if the drainer has not reclaimed before, and changes no other job |
| `IngestRuns.NoClaimBeforeReclaim` | packages/kits/CorpusKit/Sources/CorpusKit/CorpusIngestQueue.swift:438-467 | After its first acquisition a drainer can claim no batch before it has reclaimed |
| `IngestRuns.DrainersReclaimOnce` | packages/kits/CorpusKit/Sources/CorpusKit/CorpusIngestQueue.swift:430-462 | In every run no drainer that has reclaimed comes to reclaim again |
| `IngestRuns.OrphanWaitsForReclaim` | packages/kits/CorpusKit/Sources/CorpusKit/CorpusIngestQueue.swift:438-467 | A cur row that no living drainer holds keeps its status and session through a run if and only if no drainer of its stream reclaims in it |
| `IngestRuns.StreamsAreIsolated` | packages/kits/CorpusKit/Sources/CorpusKit/CorpusIngestQueue.swift:547-595 | In every reachable state a drainer's step changes no job of the other stream |
| `IngestRuns.EveryJobCanFinish` | packages/kits/CorpusKit/Sources/CorpusKit/CorpusIngestQueue.swift:432-467 | From every reachable state a newly mounted drainer can bring every job of its stream to its end: done if it decodes and blocked only if it does not, what was done or blocked before staying so |
| `IngestBlocked.BlockedMeansHopeless` | packages/kits/CorpusKit/Sources/CorpusKit/CorpusIngestQueue.swift:508-536 | In every run from the empty state a blocked job does not decode, or the run holds eight failed attempts of one drainer at it with no other step of that drainer in between |
| `IngestBlocked.EighthFailureBlocks` | packages/kits/CorpusKit/Sources/CorpusKit/CorpusIngestQueue.swift:520-536 | In every run a failed attempt blocks the row it holds, and ends the retries, if and only if the last seven steps of that drainer were failed attempts at the same job |
| `IngestBlocked.IngestedIsRepliedDone` | packages/kits/CorpusKit/Sources/CorpusKit/CorpusIngestQueue.swift:364-383 | In every run the reply after a successful batch, for the session or job by job, and the reply after a successful attempt, turn the rows still cur to done |
| `IngestDrain.DrainWorker.DrainOnce` | packages/kits/CorpusKit/Sources/CorpusKit/CorpusIngestQueue.swift:326-409 | The drain pass as a loop, with arbitrary steps of others between any two of its own: it ends, no row is then cur under its session, and no row is blocked that decodes and was not failed at eight times in a row |
| `IngestDrain.DrainWorker.IngestAndRetire` | packages/kits/CorpusKit/Sources/CorpusKit/CorpusIngestQueue.swift:326-383 | After a successful batch every row that was cur under the session when the reply was made is done, others acting in between |
| `IngestDrain.DrainWorker.FallBack` | packages/kits/CorpusKit/Sources/CorpusKit/CorpusIngestQueue.swift:508-536 | The per-job fallback takes between one and eight attempts for each of its jobs and ends with none cur under its session |
| `Calendar.FormulaIsDayCount` | packages/kits/CorpusKit/rust/src/basis_store.rs:271-281 | For every year and every month and day the parser lets through, walking the computed number of days from 1970-01-01 reaches the date if and only if the date exists |
| `Calendar.FormulaIsMonotone` | packages/kits/CorpusKit/rust/src/basis_store.rs:271-281 | A later date has a larger day count, in any years, negative ones included |
| `Calendar.OverlongDayRollsOver` | packages/kits/CorpusKit/rust/src/basis_store.rs:268-270 | A day past the end of its month is read as that many days into the next month |
| `Timestamps.CanonicalParses` | packages/kits/CorpusKit/rust/src/basis_store.rs:251-283 | Every canonical timestamp parses to its epoch seconds, whatever follows byte 19 |
| `Timestamps.ParsesExactly` | packages/kits/CorpusKit/rust/src/basis_store.rs:251-283 | Byte by byte: which strings the parser accepts, and what the signs and digits of each field are worth |
| `Timestamps.EpochSecondsAreWalked` | packages/kits/CorpusKit/rust/src/basis_store.rs:271-281 | Those are the days walked from 1970-01-01 times 86 400 plus the second of the day |
| `Timestamps.ByteOrderIsTimeOrder` | packages/kits/CorpusKit/rust/src/basis_store.rs:24-27 | On canonical timestamps the byte order of the strings is the order of the parsed seconds, and equal strings are equal seconds |
| `Timestamps.SuffixedByteOrder` | packages/kits/CorpusKit/rust/src/basis_store.rs:245-250 | With fraction and zone suffixes an earlier second still sorts first |
| `Timestamps.SortsByTimeExactlyWhen` | packages/kits/CorpusKit/rust/src/basis_store.rs:251-283 | Any string the parser accepts, signed fields, missing dates, overflowing clocks and suffixes included, sorts by time if and only if it parses to the second right before the first canonical timestamp that sorts after it (any earlier second before the very first one, no earlier second than the last one after it) |
| `Timestamps.DigitsSortExactlyWhenCanonical` | packages/kits/CorpusKit/rust/src/basis_store.rs:262-270 | A timestamp of digits only that the parser accepts sorts by time if and only if it is canonical, or lies past the last second of the last day |
| `Timestamps.NotCanonicalMissorts` | packages/kits/CorpusKit/rust/src/basis_store.rs:268-270 | Every other one, with a missing date or an hour, minute or second out of range, sorts before a canonical one it parses to no earlier than |
| `Timestamps.SignedYearSortsExactlyWhen` | packages/kits/CorpusKit/rust/src/basis_store.rs:257-262 | One with a signed year sorts by time if and only if it parses to a second before the first canonical one |
| `Timestamps.SignedFieldSortsExactlyWhen` | packages/kits/CorpusKit/rust/src/basis_store.rs:257-267 | One whose first sign stands in a later field, in a unit that exists, sorts by time if and only if it parses to the very second before that unit |
| `BasisCodec.RoundTripExactlyWhenFits` | packages/kits/CorpusKit/rust-providers/src/basis_codec.rs:88-178 | A value comes back unchanged, ahead of any further bytes, if and only if the format can hold it |
| `BasisCodec.EncodingIsPrefixFree` | packages/kits/CorpusKit/rust-providers/src/basis_codec.rs:88-178 | Blobs that are equal or prefixes of one another come from equal values |
| `BasisCodec.UIntLawful` | packages/kits/CorpusKit/rust-providers/src/basis_codec.rs:110-125 | Little-endian integers round-trip, reject every proper prefix as truncated and decode only values that fit |
| `BasisCodec.StrLawful` | packages/kits/CorpusKit/rust-providers/src/basis_codec.rs:127-131 | Length-prefixed UTF-8 strings do the same, and malformed UTF-8 is rejected |
| `BasisCodec.HeaderLawful` | packages/kits/CorpusKit/rust-providers/src/basis_codec.rs:218-243 | Magic and version do the same |
| `BasisCodec.PairLawful` | packages/kits/CorpusKit/rust-providers/src/basis_codec.rs:88-178 | Concatenating two lawful formats is lawful |
| `BasisCodec.CountedLawful` | packages/kits/CorpusKit/rust-providers/src/basis_codec.rs:134-152 | Count-prefixed arrays and matrices are lawful |
| `BasisCodec.SortedMapLawful` | packages/kits/CorpusKit/rust-providers/src/basis_codec.rs:154-178 | Maps written by ascending key bytes are lawful: canonical in the map's contents |
| `BlobLayouts.U32Layout` | packages/kits/CorpusKit/rust-providers/src/basis_codec.rs:110-112 | A 32-bit field is four bytes, byte i being n / 256^i mod 256 |
| `BlobLayouts.U64Layout` | packages/kits/CorpusKit/rust-providers/src/basis_codec.rs:115-117 | A 64-bit field is its low 32-bit field followed by its high one |
| `BlobLayouts.StrLayout` | packages/kits/CorpusKit/rust-providers/src/basis_codec.rs:127-131 | A string is the 32-bit field of its byte length, then its bytes |
| `BlobLayouts.ArrayLayout` | packages/kits/CorpusKit/rust-providers/src/basis_codec.rs:134-141 | Element i of an array stands in the four bytes at offset 4 + 4i, behind the count |
| `BlobLayouts.MatrixLayout` | packages/kits/CorpusKit/rust-providers/src/basis_codec.rs:144-152 | A matrix is the count of its rows, then each row as an array, consecutive to the end |
| `BlobLayouts.MapLayout` | packages/kits/CorpusKit/rust-providers/src/basis_codec.rs:154-178 | A map is the count of its entries, then key and value of each, consecutive and by strictly ascending key bytes, one for each key |
| `BlobLayouts.HeaderRefusesExactly` | packages/kits/CorpusKit/rust-providers/src/basis_codec.rs:218-243 | Too few bytes, a foreign magic, a foreign version and acceptance: each exactly when the first bytes say so |
| `BlobLayouts.ForeignBlobRefused` | packages/kits/CorpusKit/rust-providers/src/basis_codec.rs:218-243 | A whole blob under another magic or version is refused as such, whatever follows |
| `BlobLayouts.StringRefusesExactly` | packages/kits/CorpusKit/rust-providers/src/basis_codec.rs:278-289 | A string is truncated exactly when its bytes are not all there, malformed exactly when they are and are not UTF-8 |
| `BasisStreams.SortedKeysOf` | packages/kits/CorpusKit/rust-providers/src/basis_codec.rs:154-178 | Collecting keys in any order and sorting by bytes gives the one ascending key list |
| `BasisStreams.BasisWriter.WriteMagic` | packages/kits/CorpusKit/rust-providers/src/basis_codec.rs:105-107 | Appends exactly the four magic bytes |
| `BasisStreams.BasisWriter.WriteU32` | packages/kits/CorpusKit/rust-providers/src/basis_codec.rs:110-112 | Appends exactly the little-endian 32-bit encoding, cut to 32 bits |
| `BasisStreams.BasisWriter.WriteU64` | packages/kits/CorpusKit/rust-providers/src/basis_codec.rs:115-117 | Appends exactly the little-endian 64-bit encoding |
| `BasisStreams.BasisWriter.WriteString` | packages/kits/CorpusKit/rust-providers/src/basis_codec.rs:127-131 | Appends exactly the encoding of the string |
| `BasisStreams.BasisWriter.WriteF32Array` | packages/kits/CorpusKit/rust-providers/src/basis_codec.rs:134-141 | Appends exactly the encoding of the array |
| `BasisStreams.BasisWriter.WriteF32Matrix` | packages/kits/CorpusKit/rust-providers/src/basis_codec.rs:144-152 | Appends exactly the encoding of the matrix |
| `BasisStreams.BasisWriter.WriteVectorMap` | packages/kits/CorpusKit/rust-providers/src/basis_codec.rs:156-166 | Appends exactly the canonical encoding of the map, whatever order the map iterates in |
| `BasisStreams.BasisWriter.WriteU32Map` | packages/kits/CorpusKit/rust-providers/src/basis_codec.rs:169-178 | Appends exactly the canonical encoding of the map, whatever order the map iterates in |
| `BasisStreams.BasisWriter.WriteNestedMap` | packages/kits/CorpusKit/rust-providers/src/ppmi.rs:400-411 | Appends exactly the canonical encoding of PPMI's map of maps |
| `BasisStreams.BasisReader.ExpectMagic` | packages/kits/CorpusKit/rust-providers/src/basis_codec.rs:218-231 | Accepts exactly the expected four bytes; too few are truncated, others a mismatch |
| `BasisStreams.BasisReader.ExpectVersion` | packages/kits/CorpusKit/rust-providers/src/basis_codec.rs:234-242 | Accepts exactly the expected version byte |
| `BasisStreams.BasisReader.ReadU32` | packages/kits/CorpusKit/rust-providers/src/basis_codec.rs:245-256 | Reads what the 32-bit format decodes, error cases included |
| `BasisStreams.BasisReader.ReadU64` | packages/kits/CorpusKit/rust-providers/src/basis_codec.rs:259-270 | Reads what the 64-bit format decodes, error cases included |
| `BasisStreams.BasisReader.ReadString` | packages/kits/CorpusKit/rust-providers/src/basis_codec.rs:278-289 | Reads what the string format decodes, moves the cursor by exactly that, and fails exactly when it does |
| `BasisStreams.BasisReader.ReadF32Array` | packages/kits/CorpusKit/rust-providers/src/basis_codec.rs:292-299 | Reads what the array format decodes, error cases included |
| `BasisStreams.BasisReader.ReadF32Matrix` | packages/kits/CorpusKit/rust-providers/src/basis_codec.rs:302-309 | Reads what the matrix format decodes, error cases included |
| `BasisStreams.BasisReader.ReadVectorMap` | packages/kits/CorpusKit/rust-providers/src/basis_codec.rs:313-324 | Reads what the vector-map format decodes, error cases included |
| `BasisStreams.BasisReader.ReadU32Map` | packages/kits/CorpusKit/rust-providers/src/basis_codec.rs:327-337 | Reads what the count-map format decodes, error cases included |
| `BasisStreams.BasisReader.ReadNestedMap` | packages/kits/CorpusKit/rust-providers/src/ppmi.rs:427-434 | Reads what the nested-map format decodes, error cases included |
| `ProviderBlobs.VectorBlobLawful` | packages/kits/CorpusKit/rust-providers/src/random_indexing.rs:279-330 | The Random Indexing basis and counts blobs and the PPMI basis blob round-trip ahead of further bytes and reject every proper prefix |
| `ProviderBlobs.PpmiCountsBlobLawful` | packages/kits/CorpusKit/rust-providers/src/ppmi.rs:390-441 | So does the PPMI counts blob with its nested map |
| `ProviderBlobs.NmfCountsBlobLawful` | packages/kits/CorpusKit/rust-providers/src/nmf_provider.rs:361-387 | So does the NMF counts blob |
| `ProviderBlobs.NmfBasisBlobLawful` | packages/kits/CorpusKit/rust-providers/src/nmf_provider.rs:389-440 | So does the NMF basis blob |
| `BlobLayouts.VectorBlobLayout` | packages/kits/CorpusKit/rust-providers/src/random_indexing.rs:279-292 | Magic, version 1, model id, model version, seed and vector map, in this order and nothing else |
| `BlobLayouts.PpmiCountsLayout` | packages/kits/CorpusKit/rust-providers/src/ppmi.rs:384-412 | The bytes P P M C, version 1, the two names, seed, pair total, term total, term counts and nested counts |
| `BlobLayouts.NmfCountsLayout` | packages/kits/CorpusKit/rust-providers/src/nmf_provider.rs:358-372 | The bytes N M F C, version 1, the two names, seed, document count and vocabulary |
| `BlobLayouts.NmfBasisLayout` | packages/kits/CorpusKit/rust-providers/src/nmf_provider.rs:389-409 | The bytes N M B 1, version 1, the two names, the six numbers, vocabulary, W and H |
| `ProviderStreams.WriteVectors` | packages/kits/CorpusKit/rust-providers/src/random_indexing.rs:279-292 | The calls that write a vector blob write exactly the blob format's encoding |
| `ProviderStreams.WritePpmiCounts` | packages/kits/CorpusKit/rust-providers/src/ppmi.rs:390-412 | So do those for the PPMI counts |
| `ProviderStreams.WriteNmfCounts` | packages/kits/CorpusKit/rust-providers/src/nmf_provider.rs:361-372 | So do those for the NMF counts |
| `ProviderStreams.WriteNmfBasis` | packages/kits/CorpusKit/rust-providers/src/nmf_provider.rs:389-409 | So do those for the NMF basis |
| `ProviderStreams.ReadVectors` | packages/kits/CorpusKit/rust-providers/src/random_indexing.rs:296-312 | The calls that read a vector blob return what the blob format decodes, or fail with its error |
| `ProviderStreams.ReadPpmiCounts` | packages/kits/CorpusKit/rust-providers/src/ppmi.rs:418-440 | So do those for the PPMI counts |
| `ProviderStreams.ReadNmfCounts` | packages/kits/CorpusKit/rust-providers/src/nmf_provider.rs:376-387 | So do those for the NMF counts |
| `ProviderStreams.ReadNmfBasis` | packages/kits/CorpusKit/rust-providers/src/nmf_provider.rs:415-440 | So do those for the NMF basis, up to the rebuild |
| `Restart.InvisibleExactlyWhenFits` | packages/kits/CorpusKit/rust-providers/src/ppmi.rs:443-471 | For any counts format and any fold: write, restore, fold on is the unrestarted state for every continuation if and only if the state fits the format |
| `Restart.PpmiRestartTransparent` | packages/kits/CorpusKit/rust-providers/src/ppmi.rs:449-471 | For the PPMI counts: if and only if the counts fit their fields |
| `Restart.FoldPpmiIsTraining` | packages/kits/CorpusKit/rust-providers/src/ppmi.rs:200-224 | The counts that are folded are the trained table, the counts of all terms and their totals, on top of what was restored |
| `Restart.RandomIndexingRestartTransparent` | packages/kits/CorpusKit/rust-providers/src/random_indexing.rs:318-341 | For the context vectors as float bit patterns under any float addition, and any number of folded pairs: if and only if they fit the format |
| `Restart.PatternsFollowIntegers` | packages/kits/CorpusKit/rust-providers/src/random_indexing.rs:242-254 | Up to 2^24 folded pairs the float vectors are the integer vectors that the co-occurrence results speak about |
| `Restart.FoldRiIsTraining` | packages/kits/CorpusKit/rust-providers/src/random_indexing.rs:214-256 | Up to that many pairs the vectors a new provider folds are the patterns of the vectors its training computes |
| `Restart.PairsBoundComponents` | packages/kits/CorpusKit/rust-providers/src/random_indexing.rs:236-255 | No component of any context vector exceeds the number of pairs folded |
| `Restart.AnchorRestartTransparent` | packages/kits/CorpusKit/rust-providers/src/nmf_provider.rs:361-387 | For the anchor builder: if and only if vocabulary and document count fit their fields |
| `Restart.ContinueAnchor` | packages/kits/CorpusKit/rust-providers/src/term_document_counts.rs:88-95 | A builder restored from what was read continues by exactly the fold the restart result speaks about |
| `Cooccurrence.PositionsExact` | packages/kits/CorpusKit/rust-providers/src/ppmi.rs:206-222 | The loop visits every ordered pair of distinct positions within the window exactly once, and no other |
| `Cooccurrence.PairCountIsPositionCount` | packages/kits/CorpusKit/rust-providers/src/ppmi.rs:206-222 | How often a term pair is visited is the number of position pairs that read it |
| `Cooccurrence.PairCountIsSymmetric` | packages/kits/CorpusKit/rust-providers/src/ppmi.rs:206-222 | The pair counts are symmetric |
| `Cooccurrence.DocumentPairTotal` | packages/kits/CorpusKit/rust-providers/src/ppmi.rs:206-222 | A document of n terms contributes 2 times the sum of (n - d) for d from 1 to min(w, n-1) |
| `Cooccurrence.PpmiCountsMeetSpecification` | packages/kits/CorpusKit/rust-providers/src/ppmi.rs:200-224 | After any documents each table entry is the number of position pairs within the window, the table is symmetric, and it has no other entries |
| `Cooccurrence.TableTotal` | packages/kits/CorpusKit/rust-providers/src/ppmi.rs:217-218 | All entries sum to the number of pairs |
| `Cooccurrence.CountTotal` | packages/kits/CorpusKit/rust-providers/src/ppmi.rs:220-222 | All term counts sum to the number of terms |
| `Restart.PpmiTotals` | packages/kits/CorpusKit/rust-providers/src/ppmi.rs:217-222 | After any documents the pair total is the sum of all table entries and the term total the sum of all term counts |
| `Cooccurrence.TrainingOrderIrrelevant` | packages/kits/CorpusKit/rust-providers/src/ppmi.rs:200-224 | Both trained states depend on the documents and not on their order |
| `Cooccurrence.RandomIndexingIsWeightedCooccurrence` | packages/kits/CorpusKit/rust-providers/src/random_indexing.rs:229-255 | For any visited pairs: the vocabulary is the key set of the count table; each context vector is the sum over contexts of count times index vector; each component is bounded by the term's pair count |
| `Cooccurrence.ProvidersAgree` | packages/kits/CorpusKit/rust-providers/src/random_indexing.rs:214-256 | So it is after both providers were trained on the same documents with the same window |
| `CooccurrenceProviders.PpmiProvider.Train` | packages/kits/CorpusKit/rust-providers/src/ppmi.rs:200-224 | The nested loops bump the table once per visited pair and count every term, with running totals to match |
| `CooccurrenceProviders.RandomIndexingProvider.Train` | packages/kits/CorpusKit/rust-providers/src/random_indexing.rs:214-256 | The precomputed loop that writes each target back once equals the naive accumulation pair by pair |
| `CooccurrenceProviders.IndexVector` | packages/kits/CorpusKit/rust-providers/src/random_indexing.rs:130-143 | The index vector is ternary, between one and ten of its 2048 entries are set, and each entry is zero if none of the ten draws hits it, else plus or minus one by the parity drawn with its last hit |
| `Chunker.Split` | packages/kits/CorpusKit/rust/src/chunker.rs:58-125 | For any segments: chunks are slices at their offset, strictly increasing in (start, length), without gaps, joining to the whole text without their overlaps, no longer than max(target, overlap + longest segment), and absent exactly for empty text. Every chunk ends at a segment boundary; one that is not the last reaches the target or exceeds it with the segment at its end; each starts the overlap, or the whole of a shorter one, before the end of its predecessor; past the target it goes by one segment at most |
| `Chunker.SplitIsDetermined` | packages/kits/CorpusKit/rust/src/chunker.rs:58-125 | For given segments and configuration only one chunk list meets what `Chunker.Split` promises |
| `Chunker.NewConfiguration` | packages/kits/CorpusKit/rust/src/chunker.rs:33-41 | The configuration is clamped so that the target is positive and the overlap is smaller |
| `Chunker.Flush` | packages/kits/CorpusKit/rust/src/chunker.rs:127-160 | Emits the buffer and keeps its overlap; a buffer no longer than the overlap stays whole and its start does not move |
| `Chunker.AddSegment` | packages/kits/CorpusKit/rust/src/chunker.rs:76-112 | One round keeps the buffer the unread tail, shorter than the target, the next emission strictly after the last, and every emitted chunk filled |
| `TermCounts.TermDocumentCounts.AddDocument` | packages/kits/CorpusKit/rust-providers/src/term_document_counts.rs:104-133 | Keeps the vocabulary the bijection onto 0..n-1 in encounter order, each row the exact term counts, and each document frequency the number of documents |
| `TermCounts.TermDocumentCounts.AddDocumentForCountsAnchor` | packages/kits/CorpusKit/rust-providers/src/term_document_counts.rs:152-164 | Keeps the same vocabulary and document count |
| `TermCounts.AnchorAgreesWithFull` | packages/kits/CorpusKit/rust-providers/src/term_document_counts.rs:147-164 | Fed the same documents, anchor and full builder agree on every index and on the document count |
| `TermCounts.MeetAllExtends` | packages/kits/CorpusKit/rust-providers/src/term_document_counts.rs:114-123 | An index once given never changes |
| `TermCounts.EncounterOrderIsReadingOrder` | packages/kits/CorpusKit/rust-providers/src/term_document_counts.rs:104-133 | The vocabulary's order is that of first occurrence in the documents read one after the other |
| `ReducedVocab.Select` | packages/kits/CorpusKit/rust-providers/src/reduced_vocab.rs:53-108 | For any vocabulary, gaps and repeated indices included: at or below the cap every place holds a term of that index or nothing, above it the list is the head of the ranking in contiguous columns and each index leads to its last column |
| `ReducedVocab.SelectionIsKept` | packages/kits/CorpusKit/rust-providers/src/reduced_vocab.rs:53-108 | Fed from the builder, the columns are contiguous, the maps agree with them, and the list is all terms in index order or the head of the ranking, whatever order the map iterates in |
| `ReducedVocab.KeptIsTopK` | packages/kits/CorpusKit/rust-providers/src/reduced_vocab.rs:82-96 | Above the cap every kept term precedes every dropped non-hapax in (document frequency descending, bytes ascending), and the list is full whenever one is dropped |
| `ReducedVocab.RankedByDocumentFrequency` | packages/kits/CorpusKit/rust-providers/src/reduced_vocab.rs:82-96 | Fed from the builder, the ranking frequency is the number of documents the term occurs in |
| `ReducedVocab.LargerCapExtends` | packages/kits/CorpusKit/rust-providers/src/reduced_vocab.rs:94-102 | While the vocabulary stays above it, a larger cap only extends the list |
| `ReducedVocab.ExtendsAtVocabularySizeExactlyWhen` | packages/kits/CorpusKit/rust-providers/src/reduced_vocab.rs:60-79 | At the vocabulary size the list extends that of a smaller cap if and only if the terms the smaller cap keeps were met first, best first |
| `Nmf.NmfProvider.Finalize` | packages/kits/CorpusKit/rust-providers/src/nmf_provider.rs:228-320 | Leaves W, H, rank, basis vocabulary and document columns in agreement: the factors of the TF matrix over exactly the kept terms, or a fully empty basis |
| `Nmf.BuildTfMatrix` | packages/kits/CorpusKit/rust-providers/src/nmf_provider.rs:276-286 | Each cell is the weight of the term's count in the document, whatever order the rows iterate in |
| `Nmf.NmfProvider.Train` | packages/kits/CorpusKit/rust-providers/src/nmf_provider.rs:210-213 | Extends the history by one training, the counts by its document, and keeps basis and shape |
| `Nmf.NmfProvider.EmbedFloat` | packages/kits/CorpusKit/rust-providers/src/nmf_provider.rs:467-528 | Every index of the fold-in is in bounds, and the result is the normalized fold of the weighed occurrence counts, or none, as `Nmf.QueryEmbeddingMeans` says |
| `Nmf.QueryEmbeddingMeans` | packages/kits/CorpusKit/rust-providers/src/nmf_provider.rs:467-528 | Entry i of the query vector weighs how often column i occurs in the query, each component folds its own column of W, and there is no embedding without a basis, without a known term, or when either vector is zero |
| `Nmf.RawCountsOccurrences` | packages/kits/CorpusKit/rust-providers/src/nmf_provider.rs:482-490 | The count of a column is the number of places in the query whose term has that column |
| `Nmf.NmfProvider.DocumentEmbedding` | packages/kits/CorpusKit/rust-providers/src/nmf_provider.rs:541-546 | None out of range or without a basis, the normalized column of H for a document the last finalization saw, and a panic for a later one |
| `Nmf.FromRecord` | packages/kits/CorpusKit/rust-providers/src/nmf_provider.rs:415-457 | The rebuild loop gives the normalized columns of H, and panics exactly where a row is missing or too short |
| `Nmf.RebuildExactlyWhenUpToDate` | packages/kits/CorpusKit/rust-providers/src/nmf_provider.rs:442-455 | In every run from new, a basis written then can be rebuilt without running off H if and only if no document with terms was trained since the last finalization, or there is no basis |
| `Nmf.AccessorInBoundsExactlyWhenUpToDate` | packages/kits/CorpusKit/rust-providers/src/nmf_provider.rs:541-546 | In every run from new, the accessor panics for no document under exactly the same condition |
| `Nmf.RestoredExactlyWhenFitsAndUpToDate` | packages/kits/CorpusKit/rust-providers/src/nmf_provider.rs:389-457 | End to end: what is read back from the blob is the record written, rebuilds, and embeds every query and every document as the original, if and only if the record fits and that condition holds |
| `Nmf.CutRankStillEmbeds` | packages/kits/CorpusKit/rust-providers/src/nmf_provider.rs:389-440 | A record that does not fit only in its rank comes back with the rank cut to 32 bits and rebuilds to the same basis |
| `Nmf.BlobReturnsRecord` | packages/kits/CorpusKit/rust-providers/src/nmf_provider.rs:389-440 | The basis blob decodes to the record it was written from if and only if the record fits |
| `Bm25.BM25Index.IndexDocuments` | packages/kits/CorpusKit/rust/src/bm25_index.rs:71-92 | After a batch the term table is the exact inversion of the latest token lists, and the cache is empty |
| `Bm25.BM25Index.Remove` | packages/kits/CorpusKit/rust/src/bm25_index.rs:95-99 | After a removal the table is the inversion of the other documents, and the cache is empty |
| `Bm25.BM25Index.RemoveMem` | packages/kits/CorpusKit/rust/src/bm25_index.rs:101-110 | Visiting every term leaves the inversion of the other documents |
| `Bm25.BM25Index.TopK` | packages/kits/CorpusKit/rust/src/bm25_index.rs:132-153 | Cached or not, the answer is that of an index built from the surviving documents alone |
| `Bm25.NoEmptyPostingList` | packages/kits/CorpusKit/rust/src/bm25_index.rs:101-110 | No posting list is empty and no frequency is zero |
| `Bm25.ColumnSumsToLength` | packages/kits/CorpusKit/rust/src/bm25_index.rs:80-87 | A document's frequencies sum to its stored length |
| `Bm25.LatestTextSurvives` | packages/kits/CorpusKit/rust/src/bm25_index.rs:71-99 | After any run of writes a document holds the tokens of its latest text, or is absent when removed since |
| `Bm25.SameSurvivorsSameAnswers` | packages/kits/CorpusKit/rust/src/bm25_index.rs:132-153 | Histories that leave the same texts answer every query alike |
| `Ranking.SourceRankingIsExact` | packages/kits/CorpusKit/Sources/CorpusKit/CorpusKit.swift:2181-2196 | Given the true top hits, each returned score is the source's best over all its mapped chunks, and no omitted source has a strictly better chunk than a returned one; both directions |
| `Ranking.Bm25TopKBySource` | packages/kits/CorpusKit/Sources/CorpusKit/CorpusKit.swift:2154-2196 | The keyword lane ranks the hits by best score per source, guards and zero default included |
| `Ranking.FloatNearest` | packages/kits/CorpusKit/Sources/CorpusKit/CorpusKit.swift:2384-2479 | The float lane fetches four times the limit; every entry scores one minus its source's least fetched distance over 10 000 (greatest for farthest), entries come by that distance with ties by source id, no omitted source would come earlier, the list is full or complete, and no rows are reported exactly when no hit is mapped |
| `Ranking.FarthestIsDualOfNearest` | packages/kits/CorpusKit/Sources/CorpusKit/CorpusKit.swift:2446-2474 | The farthest direction is the nearest one on negated scores, with the same tie-break |
| `Ranking.KeywordScoreIsBestExactlyWhen` | packages/kits/CorpusKit/Sources/CorpusKit/CorpusKit.swift:2183-2187 | The score the keyword lane reports for a source is the best of the engine's scores if and only if one of them is not negative; otherwise it is zero |
| `Ranking.OverFetchSufficesExactlyWhen` | packages/kits/CorpusKit/Sources/CorpusKit/CorpusKit.swift:2163-2171 | The over-fetch reaches as many sources as asked, for every scoring, if and only if no smaller group of sources owns enough matching chunks to fill the fetch |
| `Ranking.FourChunksPerSourceSuffice` | packages/kits/CorpusKit/Sources/CorpusKit/CorpusKit.swift:2163-2171 | Four matching chunks per source at most are enough |
| `Ranking.OneLongSourceHidesTheRest` | packages/kits/CorpusKit/Sources/CorpusKit/CorpusKit.swift:2163-2165 | The stated guarantee of enough sources fails whenever one source owns four times the limit in matching chunks and another one matches |
| `BundleStore.BundleStore.Insert` | packages/kits/CorpusKit/rust/src/bundle_store.rs:240-322 | Stores exactly the new chunks, returns them in input order, and refreshes the root of every source in the batch |
| `BundleStore.BundleStore.Rollup` | packages/kits/CorpusKit/rust/src/bundle_store.rs:502-552 | Hashes exactly the source's rows, in any order |
| `BundleStore.BundleStore.ScrubText` | packages/kits/CorpusKit/rust/src/bundle_store.rs:462-473 | Empties the text of the source's rows and nothing else, and counts them |
| `BundleStore.BundleStore.Reopen` | packages/kits/CorpusKit/rust/src/bundle_store.rs:489-495 | Recomputes the root of every source that has rows |
| `BundleStore.BundleStore.GlobalRoot` | packages/kits/CorpusKit/rust/src/bundle_store.rs:582-606 | Hashes one child per source, as often as sources share a derived id and a root |
| `BundleStore.RootPairsUnique` | packages/kits/CorpusKit/rust/src/bundle_store.rs:582-606 | There is only one such collection of children, so the global root is determined by the per-source roots |
| `BundleStore.RootsStayCoherent` | packages/kits/CorpusKit/rust/src/bundle_store.rs:489-552 | After every run each stored root is the recomputation over exactly that source's rows |
| `BundleStore.RootsHashFirstWrites` | packages/kits/CorpusKit/rust/src/bundle_store.rs:489-552 | After every run exactly the sources an insert named have a root, and it hashes one leaf for each id first written under the source, of the text first written, whatever was scrubbed, written again or reopened since |
| `BundleStore.ScrubChangesNoRoot` | packages/kits/CorpusKit/rust/src/bundle_store.rs:455-461 | On rows written by insert a scrub changes no root, now or at the next open |
| `BundleStore.ScrubSafeExactlyWhen` | packages/kits/CorpusKit/rust/src/bundle_store.rs:524-538 | With older rows too, the root the next open computes survives a scrub if and only if every row of the source carries a hash or had no text |
| `BundleStore.ScrubbedStaysEmpty` | packages/kits/CorpusKit/rust/src/bundle_store.rs:240-296 | A scrubbed row's text stays empty in every run, re-insertion included |
| `BundleStore.EachRowReturnedOnce` | packages/kits/CorpusKit/rust/src/bundle_store.rs:234-239 | Over any run the chunks returned by insert name every row added exactly once |
| `BundleStore.RowsTrackHistory` | packages/kits/CorpusKit/rust/src/bundle_store.rs:240-296 | After every run the store holds exactly the ids ever inserted, each with the leaf hash of the text first written under it, for ever, and that text until its source is scrubbed |
| `BundleStore.InsertReturnsFirst` | packages/kits/CorpusKit/rust/src/bundle_store.rs:268-296 | A returned chunk was not stored before and is the first of its id in the batch |

## Left out

- CorpusRebuild.ReopenTransparent: a saved basis or counts blob is taken to be read back as it was written; when it is, `Restart` and `Nmf.RestoredExactlyWhenFitsAndUpToDate` say.
- IngestRuns.DoneMeansIngested: ingested means that the corpus call of the job's stream ran for that job; what the call leaves is the lifecycle's matter.
- IngestDrain.DrainWorker.DrainOnce: the pass works on ghost state, because the shared table and the other drainers are one transition system; job rows are not a mutable table there.
- In-memory estates, where a drainer polls without a lease, and the failure-injection hook of the tests, which sends a whole batch down the per-job path.
- The seam between the lifecycle and the concrete parts: the lifecycle takes chunking, indexing and training as given functions, and the chunker, the indexes and the providers are modelled beside it.
- `destroyRecallIndex`, a change of the model set between opens, pretrained providers supplied by a caller.
- Reentrancy inside one corpus call, partial failure and transaction rollback.
- Time stamps that nothing reads back: `updated_at` of saved counts, `trained_at`, `removed_at`, `created_at`. The two ingest forms stamp saved counts with different instants.
- The hybrid logical clock: a chunk's order stamp is a counter of the generator that made it, restarted with the process or, in the sharded import, with each document.
- Shard files, sweeping stale shards, deferred index publication, the encoded-sources callback, progress logging, telemetry.
- PersistenceKit, QueueKit, VectorStore, the WAND engine, rank fusion, hashing row store, SVD and NMF kernels, SimHash, FNV and SplitMix64.
- PPMI weights, TF-IDF, normalization: float arithmetic.
- LSA, MiniLM, MPNet, Gemma, NL and FDC providers; the sync manifest and schema declarations.
