# A verified model of the vector database

The database keeps JSON documents and vectors in namespaces over an ordered key-value store with atomic
durable batches and stable snapshots. Each write also leaves a change record. A background job builds a
complete index generation from a snapshot, stages it in many batches, publishes it with one key, and retires
the generation and the change records it replaces, while writes keep landing. Queries read a possibly stale
generation and overlay the changed documents, and are meant to answer like a plain scan. Around this core are
an ownership lease with which workers take turns at a shard, binary vector blocks, backup files, restore, a
migration from the first format, and listings that a gateway merges over shards.

The files follow the layers of the program:

| file | contents |
|---|---|
| `order.dfy`, `sums.dfy`, `arithmetic.dfy`, `endian.dfy`, `wrappers.dfy` | byte strings in key order and their enumerations, totals over maps, products and quotients, little-endian integers |
| `numbers.dfy`, `decimal.dfy`, `model.dfy`, `keys.dfy` | binary64 order, numbers printed and read, documents, schemas, filters, words, and the text of keys |
| `index.dfy`, `builder.dfy`, `packing.dfy` | what a generation stores and means, the build, filters over postings, blocks |
| `ranking.dfy`, `search.dfy`, `text.dfy` | the bounded heap, vector plans, text plans |
| `store.dfy`, `engine.dfy`, `upkeep.dfy`, `service.dfy` | namespaces as stored, writes and counters, background batches, the engine class |
| `lifecycle.dfy`, `runs.dfy`, `keyspace.dfy` | the step machine over any run, with crashes, and what holds on every run |
| `erasure.dfy` | deletion and reopening on the flat keyspace, by prefix scans, with crashes between batches |
| `worker.dfy`, `lease.dfy` | the worker loop and the timed lease protocol |
| `binary.dfy`, `backup.dfy`, `restore.dfy`, `migration.dfy`, `migrator.dfy` | formats, restore and migration |
| `listing.dfy`, `gateway.dfy` | paging, merged pages, placement |

`dafny verify dfyconfig.toml` checks the whole project.

## How to read the model

- The database is a finite map with atomic batches. `Store.Space` gathers the keys of one namespace by family;
  `Keys` and `Keyspace` show that the text of a key determines it and that prefix scans see one family of one
  namespace, also when one name starts with another.
- `Lifecycle` is the step machine. A step is one durable batch or one snapshot. Its `Job` holds the locals of
  the job that has the index lock; the schema lock is free unless a namespace is being erased. `Crash` can
  happen in any state and loses the job; a batch that lands as the process dies is the batch followed by the
  crash. An error in the middle of a build or a cleanup is `Abort`. A write whose durability is uncertain, and
  an error in the middle of an erase, are treated as crashes.
- The machine does not know what makes a generation complete. `Runs` puts in `Index.Faithful`, which
  `Builder.Build` establishes and the queries in `Search` and `TextSearch` rely on.
- `Service`, `Erasure`, `Restore`, `Migrator` and `Worker` hold classes whose methods run the loops of the source. What
  other jobs can do between two batches is the subject of `Lifecycle` and `Lease`. The methods of `Erasure.Disk` take
  the number of batches that land before the process dies; rows are kept by the text of their keys, so nothing but
  the prefixes separates one namespace from another.
- Digests appear in keys by what they digest; `Keys.Digests.Valid` says that they have no collisions. Checksums
  and the backup digest are arbitrary functions.
- Scores are elements of a total order, computed by an arbitrary function of query and vector; the arithmetic of
  text ranking is a parameter applied in the order of the source. The nearest centroid of a vector and the
  centroids themselves are inputs of the build.
- A document is what its JSON text parses to, with the length of the text. Which characters form words, and
  lower case, are parameters.
- Counters are unbounded, except that the revision stops below 2^64 and the subtraction of the pending counter
  wraps as 64-bit numbers do; that it never wraps is part of what is proved.

## Where the code and its promises differ

- An erase that stops with an error, without a crash, leaves its marker behind while requests are served.
  Creation does not look at the marker, so the namespace can be created and written again, and the next reopen
  erases everything but its definition. `Runs.EraseErrorLosesWrite` is a run that loses an acknowledged write this way;
  `Runs.WriteSurvivesReopen` says that a write survives exactly when there was no marker, `Runs.NoMarkerInService` that
  there is none while errors of an erase end the process, and `Erasure.RecoveredKeys` what reopening keeps in any case.
- An export holds whatever the database holds, but verification refuses values above 16 MiB and keys above 2048
  bytes, so an export can be unreadable. The index status of 1024 centroids of 4096 dimensions is such a value: each
  number takes at least three characters. `Backup.UnreadableStatus` proves this for all such centroids,
  `Backup.UnreadableExample` names some, and `Backup.ExportVerifies` says exactly which exports are accepted: those of
  databases whose keys and values are within the limits.
- Migration writes a converted document again when it is repeated. It ends in the same state from every stopping
  point exactly when writing a document a second time changes nothing; `Migration.ResumesIffStable` states this. It can
  fail for a printer that writes the fewest digits and a reader that rounds the digits to a double before it multiplies
  by a rounded power of ten, as serde_json does without its feature for exact round trips: 9.3e24 is read as
  9.299999999999999e24, and that as 9.3e24 (`Decimal.NeighboursSwap`). A document with this number ends with one or the
  other, depending on where the migration stopped (`Migration.DriftExample`). The printer and the reader are not part
  of the repository; what they do to these two numbers is modelled in `Decimal`. IDs, vectors and change records do not
  depend on it.

## Model

| member | source | states |
|---|---|---|
| Numbers.NumberKeyOrder | src/index.rs:65-79 | number keys are ordered like the finite doubles they stand for, and equal exactly for equal numbers, both zeros included |
| Numbers.ScanSelectsRange | src/index.rs:302-319 | the bounds `low` and `high~` of a scan select the block keys of exactly the numbers inside an inclusive range |
| Decimal.FromNatRounds | src/model.rs:169-182 | an integer counts as the double nearest to it, ties to even |
| Model.CanonicalDecidesEquality | src/index.rs:45-61 | canonical forms agree exactly for values that compare equal, with negative zeros at any depth |
| Model.TallyAddsUp | src/index.rs:82-92 | every frequency lies between one and the length, and the frequencies sum to the length |
| Model.WordsAreMaximalRuns | src/index.rs:82-92 | the words of a text are its maximal runs of word characters, in order, and no word character is outside them |
| Model.Tokenize | src/index.rs:82-92 | the loop over characters counts the lower-cased words |
| Keys.RenderedInjective | src/engine.rs:717-728 | different valid keys have different texts |
| Keys.FamilyScan | src/engine.rs:616-623 | the prefix of a family and a namespace starts exactly the keys of both, also when names are prefixes of each other |
| Keys.RootScan | src/index.rs:62-64 | the root of a generation starts exactly its keys, and the empty default generation owns none |
| Keys.ListScan | src/index.rs:291-301 | the text of a posting list starts exactly the blocks of that list in that generation |
| Keys.FieldScan | src/index.rs:302-319 | the text of a numeric field starts exactly its blocks, and the number and the block number follow |
| Keys.FamilyOrder | src/engine.rs:825-837 | among namespaces, documents, vectors and change records, key order is the order of names and IDs |
| Index.ChunksConcatenate | src/index.rs:239-244 | the blocks of a list in order are the list, and all but the last are full |
| Index.StoredLists | src/index.rs:180-192 | from the stored blocks of 256: the IDs read under a list are exactly the documents that belong to it |
| Index.StoredText | src/index.rs:193-219 | from the stored blocks: the postings of each term, the stored field lengths and the corpora are those of the documents |
| Index.StoredVectors | src/index.rs:161-179 | the block counts enumerate exactly the stored blocks, and the rows of a cluster are its vectors, each once |
| Index.BlocksConcatenate | src/search.rs:206-216 | reading the blocks of a cluster in order gives back its rows |
| Index.CorpusIsWhole | src/index.rs:194-198 | counting documents one by one gives the number and the total length of all fields |
| Builder.AppendBlocks | src/index.rs:239-244 | appends numbered blocks of 256 and changes no other entry |
| Builder.AddAttributes | src/index.rs:181-192 | a document is added to exactly the equality and number lists its attributes call for |
| Builder.AddText | src/index.rs:193-212 | postings and corpora grow by exactly the terms of one document |
| Builder.Cluster | src/index.rs:161-164 | rows keep ID order inside the cluster of their nearest centroid |
| Builder.PackVectors | src/index.rs:165-179 | block counts and blocks of every cluster |
| Builder.Build | src/index.rs:107-237 | the entries have distinct keys and are faithful to the documents: lists, postings, field lengths, corpora and clusters; the status counts documents and vectors |
| Builder.FilterIds | src/index.rs:285-328 | reading a generation with a filter returns exactly the indexed IDs that match it, for any conjunction, and nothing to restrict when there is none |
| Builder.IntersectEqual | src/index.rs:291-301 | after one more equality predicate the set holds exactly the IDs that meet all predicates so far |
| Builder.IntersectRange | src/index.rs:302-328 | the same after one more range predicate |
| Builder.EqualScanVisits | src/index.rs:291-301 | by the text of keys, the scan of an equality predicate visits the blocks of its list and no other key of the database |
| Builder.RangeScanVisits | src/index.rs:302-319 | by the text of keys, the scan of a range predicate visits the blocks within its bounds and no other key |
| Builder.RangeIdsExact | src/index.rs:302-319 | the IDs of the lists that a range scan visits are those of the documents inside the range |
| Builder.EqualIdsExact | src/index.rs:291-301 | the IDs under an equality key are those of the documents with an equal attribute |
| Packing.SeedsAscend | src/index.rs:136-141 | seed positions are in bounds and strictly increasing |
| Packing.BlockSize | src/index.rs:166-170 | a full block of valid rows has at most 262144 + 17 bytes in every dimension |
| Packing.StoredBlocks | src/index.rs:165-179 | every stored vector block is within that size and decodes to its rows |
| Ranking.TopIsBest | src/search.rs:29-50 | the retained hits are ranked by score descending and ID ascending, and nothing left out is better than any of them |
| Ranking.TopOfSameBag | src/search.rs:29-50 | the result does not depend on the order of arrival |
| Ranking.RetainedIsTop | src/search.rs:38-50 | keeping the best k of each step keeps the best k of all |
| Ranking.BestHits.Retain | src/search.rs:38-50 | pushing, and dropping the worst beyond k |
| Search.AnswerOfListing | src/search.rs:76-97 | any listing of the same rows, in any order and batching, ranks alike |
| Search.RankClustersOrdered | src/search.rs:198-204 | clusters are probed by score descending, then by number |
| Search.RankClustersPermutes | src/search.rs:198-204 | every cluster is ranked, and none twice |
| Search.CleanIsCurrent | src/search.rs:115-131 | a document without a newer change record is in the index as it is now |
| Search.ScoreRows | src/search.rs:76-97 | a batch of rows goes through the heap like any other listing of them |
| Search.Hydrate | src/search.rs:98-114 | ranked hits are found, with their current attributes |
| Search.ExactScan | src/search.rs:148-171 | the answer over all current vectors that match the filter |
| Search.FilteredExact | src/search.rs:175-195 | the same answer from postings and pending changes |
| Search.CentroidAnn | src/search.rs:196-259 | the same answer when all clusters are probed; otherwise an answer over current matching vectors only |
| Search.VectorQuery | src/search.rs:133-273 | never an error, every hit with current attributes, and the answer of the plain scan unless clusters were skipped |
| TextSearch.AddTextDocument | src/search.rs:388-421 | corpus, postings and eligible set grow by exactly one document |
| TextSearch.OverlayOne | src/search.rs:323-337 | subtracting the indexed length and adding the current one never goes below zero and leaves the corpus of the mixed documents |
| TextSearch.GatherIndexed | src/search.rs:298-337 | generation and overlay gather what a scan of current documents gathers |
| TextSearch.GatherScan | src/search.rs:338-351 | the scan gathers corpus, postings and eligible documents |
| TextSearch.SearchText | src/search.rs:275-387 | the same ranking with and without an index; an error exactly for no term or more than 32 |
| TextSearch.FrequencyBelowCorpus | src/search.rs:358-360 | no term is in more documents than the corpus has, so the argument of the logarithm exceeds one |
| TextSearch.PostingsAreSound | src/index.rs:193-212 | frequencies lie between one and the length of the field, and lengths count towards the corpus |
| Engine.RecountFollows | src/engine.rs:322-363 | counters follow the keys through one operation and no subtraction goes below zero |
| Engine.CheckNames | src/engine.rs:285-298 | accepts 1 to 1000 operations with valid, distinct IDs |
| Engine.Prepare | src/engine.rs:303-367 | the batch and counters built from one snapshot are those of applying the operations in order; refused exactly for a bad document or 8 MiB of input |
| Engine.Accept | src/engine.rs:299-382 | accepted exactly within the rules and quotas, with the reason otherwise |
| Engine.ApplyAllOn | src/engine.rs:329-366 | an upsert replaces attributes and vector, a deletion removes both, and both leave a change record of the new revision |
| Engine.ApplyAllElsewhere | src/engine.rs:316-366 | other documents, vectors and change records stay |
| Engine.WriteKeepsSound | src/engine.rs:284-391 | counters, documents of vectors, validity and bounds of revisions hold after every accepted write |
| Service.Database.Write | src/engine.rs:284-391 | all of a request or an error and nothing; every namespace stays sound |
| Service.Database.CreateNamespace | src/engine.rs:232-264 | created once, found again with the same configuration, a conflict otherwise, an error exactly for a bad name or configuration |
| Service.Database.ResumeCleanup | src/engine.rs:696-714 | a marked cleanup is completed, and without a marker nothing changes |
| Service.Database.Cleanup | src/engine.rs:544-594 | exactly the other generations and the outdated change records go, and the counter says what is left |
| Service.Database.RebuildIndex | src/engine.rs:470-542 | when nothing else runs: the new generation is faithful, published and alone, with nothing pending; an error changes nothing, and comes for a missing definition, for an input over its budget, or for a complete index over its own |
| Upkeep.StageBatches | src/engine.rs:511-524 | in order, complete, each closed at the first entry that reaches 1 MiB |
| Upkeep.SweepBatches | src/engine.rs:549-567 | batches of at most 1000 that delete every other generation and nothing else |
| Upkeep.StaleIds | src/engine.rs:568-577 | exactly the records that the generation has caught up with |
| Upkeep.RetireChunk | src/engine.rs:578-592 | a chunk, checked again under the lock, leaves with its count and the counter never goes below zero |
| Erasure.Disk.EraseFamily | src/engine.rs:617-642 | after any number of batches exactly the first thousands of rows under the prefix, in key order, are gone |
| Erasure.Disk.EraseNamespace | src/engine.rs:616-653 | four families and four keys go, and no other row; cut short, all four keys are still there; it needs no more batches than rows |
| Erasure.Disk.DeleteNamespace | src/engine.rs:596-614 | hidden in the first batch; whatever is left when the process dies is a state that reopening completes |
| Erasure.Disk.Reopen | src/engine.rs:151-159 | every marked name is erased; cut short, what is left is a state that reopening completes; as many batches as rows suffice |
| Erasure.CutShortRecovers | src/engine.rs:151-159 | reopening a state that was cut short ends where the first attempt would have |
| Erasure.CrashesRecover | src/engine.rs:151-159 | the same after any number of crashes |
| Erasure.DoomedKeys | src/engine.rs:616-653 | an erase deletes the keys of its namespace except its definition, also when names are prefixes of each other |
| Erasure.RecoveredKeys | src/engine.rs:151-159 | reopening removes exactly the keys of marked names, definitions excepted, and leaves every other row as it is |
| Erasure.DeletionCompletes | src/engine.rs:596-653 | after a deletion and any number of crashes no key of the namespace is left, and no name without a marker loses one |
| Erasure.RecoveredStores | src/engine.rs:151-159 | key by key, reopening the rows is reopening each namespace |
| Upkeep.GarbageMember | src/engine.rs:553-560 | what is retired is what does not belong to the active generation |
| Lifecycle.AdvanceCovers | src/engine.rs:358-366 | what an older generation misses after a write has a newer change record |
| Lifecycle.WriteSettles | src/engine.rs:284-391 | a write keeps everything that holds of a namespace, its published generation included |
| Lifecycle.AdvanceKeepsTask | src/engine.rs:525-533 | writes between the snapshot, the staging and the cleanup of a job leave it right |
| Lifecycle.StagesMore | src/engine.rs:511-524 | after each batch the new generation holds exactly the entries staged so far |
| Lifecycle.PublishSettles | src/engine.rs:525-533 | a completely staged generation can be published over any later writes |
| Lifecycle.SweepSettles | src/engine.rs:544-567 | sweeping keeps the published generation complete |
| Lifecycle.RetireSettles | src/engine.rs:568-592 | retiring keeps counters and every record that the published generation needs |
| Lifecycle.EraseFinishes | src/engine.rs:643-652 | the last batch of an erase leaves no key |
| Lifecycle.StepKeeps | src/engine.rs:284-714 | every step of writes, builds, cleanup, deletion, crashes and recovery keeps the invariant |
| Lifecycle.RunKeeps | src/engine.rs:284-714 | the invariant holds in every state of every run that starts where it holds |
| Lifecycle.StartsEmpty | src/engine.rs:163-195 | runs can start from the empty database |
| Runs.StartsMigrated | src/backup.rs:100-157 | runs can start from a migrated database |
| Runs.StartsRestored | src/backup.rs:59-98 | runs can start from a restored backup of any state of any run |
| Runs.SnapshotsQueryable | src/engine.rs:224-230 | every snapshot a query can pin in any run has a complete generation and a record of every newer change |
| Runs.CountersHold | src/engine.rs:302-389 | documents, bytes and pending changes are what the keys say, and the revision bounds every change record |
| Runs.NothingUnderflows | src/engine.rs:322-363 | on every run no subtraction of a write or of a cleanup goes below zero |
| Runs.WritesWithinQuota | src/engine.rs:371-380 | an accepted write leaves the namespace within its quotas |
| Runs.NothingLeftBehind | src/engine.rs:534-541 | without the cleanup marker only the published generation and newer changes are stored |
| Runs.RecordsSurvive | src/engine.rs:578-592 | cleanup never removes the record of a later write |
| Runs.MarkerOutlivesKeys | src/engine.rs:643-652 | a deletion marker goes only with the last key |
| Runs.RecoveryOutcome | src/engine.rs:151-159 | from a crash to the next request, through any further crashes, marked namespaces are emptied and the others keep every key |
| Runs.DeletionRecovered | src/engine.rs:596-653 | a deletion that a crash interrupted anywhere is complete when requests are served |
| Runs.NoMarkerInService | src/engine.rs:232-264 | no namespace carries a marker while requests can create it |
| Runs.WriteSurvivesReopen | src/engine.rs:232-264 | after an erase error, a written document survives the next reopen exactly when there was no marker |
| Runs.EraseErrorLosesWrite | src/engine.rs:596-653 | a run from the empty database: a failed erase, a new namespace of that name, an acknowledged write, a crash, and the write is erased |
| Runs.EraseErrorExample | src/engine.rs:232-264 | a write that meets the premises of that run |
| Runs.PlanBuild | src/engine.rs:481-504 | what the build computes from a snapshot is a plan that the machine accepts |
| Runs.QueryAnyMoment | src/engine.rs:414-439 | a vector query at any moment of any run finds current matching vectors with their attributes, and answers like a plain scan of its snapshot unless clusters were skipped |
| Runs.SearchAnyMoment | src/engine.rs:441-461 | a text query at any moment of any run ranks like a scan of its snapshot |
| Keyspace.EmptyIffKeyless | src/engine.rs:643-652 | an empty namespace is one without a key |
| Keyspace.ScannedByPrefix | src/engine.rs:616-630 | an erase scans the stored keys under its four prefixes and no key of another namespace |
| Keyspace.DeletionLeavesNoKey | src/engine.rs:596-653 | after a crash in a deletion and a reopen, no key of the namespace is left and no other key is gone |
| Worker.Loop.Tick | src/cluster.rs:112-127 | ownership ends with the deadline or a failed engine |
| Worker.Loop.Read | src/cluster.rs:128-166 | a replacement is tried only for the tag that was observed, unchanged for its whole lease time |
| Worker.Loop.Finish | src/cluster.rs:186-222 | only a put that succeeds in time owns; a first success starts a term, anything else ends it |
| Worker.Loop.Check | src/cluster.rs:223-243 | an engine serves only when it opened before the deadline |
| Worker.Loop.Stop | src/cluster.rs:247-273 | nothing serves after the loop |
| Lease.StepKeeps | src/cluster.rs:105-249 | every step of any number of workers, of the store and of time keeps the invariant |
| Lease.LandSupersedes | src/cluster.rs:168-184 | what a put replaces when it lands has expired, or is a renewal that expires later |
| Lease.AdmittingHolds | src/cluster.rs:57-85 | a worker that answers wrote the lease last, and its deadline is covered by that write |
| Lease.Exclusive | src/cluster.rs:57-85 | at no instant of any run do two workers answer |
| Lease.TakeoverAfterDeadlines | src/cluster.rs:139-166 | a takeover lands only at or after the last deadline of every other worker |
| Lease.TermsConsistent | src/cluster.rs:105-273 | what serves was opened in the current term of an owner, nothing serves and opens at once, and nothing serves after an exit |
| Lease.LeaseAlwaysValid | src/cluster.rs:139-141 | every lease that a worker can read is in bounds |
| Lease.SomeoneServes | src/cluster.rs:90-249 | a lone worker comes to serve |
| Binary.Encode | src/binary.rs:7-21 | the nested loops write the format |
| Binary.Decode | src/binary.rs:23-71 | total on arbitrary bytes, with room for no more rows than there are bytes |
| Binary.DecodesEncoded | src/binary.rs:7-71 | well-formed rows are read back |
| Binary.EncodesDecoded | src/binary.rs:7-71 | what is read is well formed and encodes to the same bytes, unless it is empty |
| Binary.DecodesOnlyEncoded | src/binary.rs:23-71 | a block is accepted with these rows exactly when it is their encoding |
| Binary.VectorRoundTrip | src/binary.rs:73-82 | size of a stored vector, and exactly which vectors are read back |
| Backup.Export | src/backup.rs:16-57 | the stream of records and the footer |
| Backup.WriteRead | src/backup.rs:160-177 | what is read as a record is within the limits and is the bytes that writing it gives |
| Backup.ReadWritten | src/backup.rs:160-177 | a written record is read back exactly when it is within the limits |
| Backup.Verify | src/backup.rs:178-228 | the loop accepts exactly the files whose records, order, marker, count and digest are right |
| Backup.ExportVerifies | src/backup.rs:16-57 | an export is accepted exactly when the database is complete and within the limits of a record |
| Backup.UnreadableStatus | src/index.rs:107-141 | the status of an index with 1024 centroids of 4096 dimensions is too long for a record, so its database exports and cannot be restored |
| Backup.UnreadableExample | src/backup.rs:160-177 | such centroids, and a database that the store can hold |
| Backup.VerifiedIsExport | src/backup.rs:178-228 | an accepted file is the export of a complete database |
| Backup.AcceptedIffExport | src/backup.rs:178-228 | both directions |
| Backup.NoOtherLength | src/backup.rs:178-228 | no proper prefix and no extension of an accepted file is accepted, whatever the digest |
| Backup.ExportRoundTrip | src/backup.rs:16-98 | the records of an export are the database that was exported |
| Restore.RestoringUnavailable | src/engine.rs:163-222 | a database with the restoring marker is neither opened, nor migrated, nor served |
| Restore.Target.Restore | src/backup.rs:59-98 | the result is the database of the file; from the first batch on, every durable state is unavailable or complete, and an error changes nothing |
| Migration.ResumesIffStable | src/backup.rs:100-157 | resuming from every stopping point of a namespace ends alike exactly when writing documents again changes nothing |
| Decimal.NeighboursSwap | src/backup.rs:117-143 | two numbers that are printed and read as each other |
| Migration.DriftExample | src/backup.rs:117-143 | a document with such a number differs when its conversion is repeated |
| Migration.DriftPossible | src/backup.rs:117-143 | a printer that meets the premises of the example |
| Migration.MigrationResumes | src/backup.rs:100-157 | after any sequence of stops the run that completes leaves what one uninterrupted run would |
| Migration.MigratedKeeps | src/backup.rs:122-143 | every document keeps ID and vector and is pending |
| Migration.MigratedSound | src/backup.rs:117-149 | the counters and the other invariants of the engine hold afterwards |
| Migrator.Run.Namespace | src/backup.rs:112-149 | batches of 128 with the counters in the last; every durable state is a stopping point, and an invalid vector ends the run |
| Migrator.Run.Migrate | src/backup.rs:100-157 | the new format is published exactly when every namespace is migrated |
| Listing.CollectPage | src/engine.rs:838-855 | a page is full or complete, and has a cursor exactly when more follows |
| Listing.CursorContinues | src/engine.rs:825-855 | what a cursor leads to is what its page left out, and less of it |
| Listing.ListAll | src/engine.rs:670-692 | following cursors lists every name once, in order, in as many requests as pages |
| Listing.FirstSame | src/cluster.rs:448-452 | names behind the first k do not matter for the first k |
| Gateway.Merge | src/cluster.rs:418-461 | the merged page is the page that one engine with all namespaces would return, cursor included |
| Gateway.SortedIsOrdered | src/cluster.rs:450-450 | sorting distinct names enumerates them in key order |
| Gateway.ShardForWins | src/cluster.rs:359-364 | a name goes to the last of the shards with the largest digest |
| Gateway.PlacementPartitions | src/cluster.rs:359-364 | placement makes shards disjoint and loses no name |

## Left out

- Lifecycle.StepKeeps: cancellation of a request is not a step, because commits run to their end once begun.
- Builder.Build: the refinement of centroids, normalisation and the choice of the nearest centroid are inputs, because only their range and determinism matter to what a generation means.
- Search.VectorQuery: recall with few probes is not stated; hits are then right but may not be the best.
- TextSearch.SearchText: rounding of floating-point sums, because both plans add the same numbers in the same order.
- Engine.Prepare: the lengths of JSON texts come with the documents; how serde prints and parses is not modelled.
- Lease.Exclusive: clocks that run at different rates, since each worker has its own offset and all run alike; the writer fencing of the store when an engine opens, since this is about admission alone.
- Service.Database.Write: a storage error after the batch was handed over, which can leave the write durable although the caller gets an error; the machine treats it as the write followed by a crash.
- Service.Database.RebuildIndex: writes that land between its batches and crashes are left to the steps of Lifecycle.
- Erasure.Disk.Reopen: a marker whose name is not UTF-8, which the engine never writes, is an error in the source.
- Migration.MigrationResumes: a version 1 namespace holds its definition and documents only, besides what an earlier run of the migration left.
- Restore.Target.Restore: file locks and reading errors of the operating system.
- Gateway.Merge: discovery of owners, timeouts and HTTP errors; the pages of the shards are given.
- HTTP routing, authorisation, configuration parsing, metrics, cache directories and command-line handling.
- The internals of the key-value store and the object store: atomic durable batches, ordered scans, stable snapshots and conditional puts are assumed.
- Unicode tables, and the strength of SHA-256 and CRC32.
