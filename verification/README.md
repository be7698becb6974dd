# Verified model of the assistant backend

The Go service is a backend with a per-client rate limiter, a retry layer, a document upload and
question answering pipeline with conversation memory, a smart FAQ with an answer cache, a text
summarizer, and a local SQLite database. This project models the parts of it that keep state or
transform data and proves what they guarantee, over every input, every run or every
interleaving.

| file | what it models |
|---|---|
| `RateLimiter.dfy` | the token bucket per client that forgets idle clients |
| `Retry.dfy` | the retry loop and its response recorder |
| `Wrappers.dfy`, `Domain.dfy`, `Documents.dfy`, `Arithmetic.dfy` | what several parts share |
| `Text.dfy` | white space, trimming, fields, joining |
| `Chunker.dfy` | the text chunker, from a string buffer up to what its chunks hold |
| `UploadProtocol.dfy` | uploads and processing jobs as a state machine, one step for each repository call |
| `Ranking.dfy`, `Retrieval.dfy` | cosine scores, the exchange sort, similarity search |
| `MessageLog.dfy`, `MemoryStore.dfy`, `MemoryTurns.dfy` | conversation history, long-term memory, concurrent turns |
| `EmbeddingBatcher.dfy` | batching of embedding requests |
| `QuestionIndex.dfy`, `AnswerCache.dfy`, `SemanticHasher.dfy`, `SmartFaq.dfy` | the smart FAQ and its parts |
| `AnswerRaces.dfy` | concurrent lookups and saves in the answer cache |
| `QuestionText.dfy`, `Trending.dfy` | canonical question texts and the counters kept by them |
| `Migrations.dfy` | the data migrations of the local database |
| `Summarizer.dfy` | the marker format, keywords and streaming of summaries |

Objects that the service updates in place are classes here, and their methods are proved against
specification functions or relations; the theorems are about those. Floating point numbers are
reals, times and durations are numbers, and text is a sequence of runes.

Some expected properties hold only under a condition. There the model follows the code, and the
exact condition is proved:

- forgetting idle clients is observable, and lets clients influence each other, when a refill
  takes longer than the idle time (`RateLimiter.CleanupInvisibleIff`, `ClientsIndependentIff`);
- a processed document is final only when no job of it is past its status check
  (`UploadProtocol.ProcessedIsFinalIff`): an overlapping job, all of whose calls work, has its
  batch refused by the unique key and records a failure that no later job can undo
  (`RefusedBatchFails`, `OverlapUndoesProcessed`); and a document whose rows were stored but whose
  final status was not stays unprocessed for ever in the same way (`CanBeProcessedIff`);
- pruning early can lose a memory when a save lowers a priority: exactly which saves are harmless
  is `MemoryStore.SaveAgreesIff`, and over whole runs `AgreesThroughoutIff`;
- a question whose hash is zero is stored again each time it is asked in hash mode
  (`SmartFaq.DistinctThroughoutIff`, `TextStoredTwice`);
- when the embedding provider answers a request with another number of vectors than it had texts,
  which is only logged, the vectors of later requests are taken for those of other texts
  (`EmbeddingBatcher.AlignedIff`);
- an answer saved while a lookup is dropping its expired predecessor is lost
  (`AnswerRaces.DropsLiveIff`);
- the two scans of the message log differ when no count is given and more than 200 messages fit
  (`MessageLog.ScansAgreeIff`); the service always gives one;
- a legacy question whose id is taken is dropped by the migration, and a cached answer of it is
  then kept under the other question (`Migrations.LegacyQuestionKeptIff`, `AnswersMatchIff`);
- a summary that contains the keyword marker does not survive formatting and parsing, nor do
  keywords of which the first starts with a hyphen, unless all that the limit lets through, and
  one more, are lone hyphens (`Summarizer.RoundTrip`).

`dafny verify dfyconfig.toml` checks the project.

## Model

| member | source | states |
|---|---|---|
| `RateLimiter.IpRateLimiter.Allow` | internal/interface/http/middleware.go:84-106 | each call on the mutable visitor map answers what the run of all calls so far prescribes, cleanup included |
| `RateLimiter.IpRateLimiter.Decide` | internal/interface/http/middleware.go:84-106 | the critical section as a whole: the visitor found or created, the idle ones forgotten, one token taken if there is one |
| `RateLimiter.IpRateLimiter.Find` | internal/interface/http/middleware.go:88-99 | a visitor is created with a full bucket or refilled and clamped, stamped, and no other visitor changes |
| `RateLimiter.IpRateLimiter.Take` | internal/interface/http/middleware.go:101-105 | a request passes exactly when a whole token is left, and then takes one; the refused visitor keeps its fraction |
| `RateLimiter.IpRateLimiter.Cleanup` | internal/interface/http/middleware.go:108-114 | exactly the visitors idle for more than five minutes are deleted, the others are the same objects |
| `RateLimiter.TokensInRange` | internal/interface/http/middleware.go:84-106 | in every run the tokens of every visitor stay between zero and the burst |
| `RateLimiter.CleanupInvisible` | internal/interface/http/middleware.go:84-114 | if a refill fits in the idle time, every run answers exactly as a limiter that never forgets |
| `RateLimiter.ProbeDistinguishes` | internal/interface/http/middleware.go:84-114 | for every configuration where it does not, a run of calls that a never-forgetting limiter answers differently |
| `RateLimiter.CleanupInvisibleIff` | internal/interface/http/middleware.go:84-114 | forgetting is unobservable over all runs if and only if burst <= 5 * rate |
| `RateLimiter.ClientsIndependent` | internal/interface/http/middleware.go:84-114 | deleting all calls of other clients from a run leaves this client's answers as they were |
| `RateLimiter.AloneIsNeverForgetting` | internal/interface/http/middleware.go:84-114 | for every configuration, a client alone is served as by a limiter that never forgets anybody serving all clients |
| `RateLimiter.ClientsIndependentIff` | internal/interface/http/middleware.go:84-114 | clients are independent of each other over all runs if and only if burst <= 5 * rate |
| `RateLimiter.SpacedNeverRefused` | internal/interface/http/middleware.go:91-105 | a client whose calls are at least one refill of a token apart is never refused |
| `RateLimiter.WindowBound` | internal/interface/http/middleware.go:75-114 | in any window a client gets at most burst * (1 + whole idle times in the window) + rate * length, for every configuration |
| `RateLimiter.TightWindowBound` | internal/interface/http/middleware.go:75-114 | if a refill fits in the idle time, at most burst + rate * length |
| `RateLimiter.RefusedOnlyWhenUsedUp` | internal/interface/http/middleware.go:84-114 | for every configuration a refused request ends some window in which what was allowed has used up a burst and the steady rate but for less than one token, so that all the time that passes is credited |
| `RateLimiter.AllowedIffNoneUsedUp` | internal/interface/http/middleware.go:84-114 | if a refill fits in the idle time, a request is allowed if and only if no window that ends with it is used up in this sense |
| `Chunker.SimpleChunker.constructor` | internal/infra/uploadask/chunker/simple.go:20-32 | defaults for a non-positive token limit and a negative overlap |
| `Chunker.SimpleChunker.Chunk` | internal/infra/uploadask/chunker/simple.go:35-109 | the double loop over the string buffer and its rune counter yields exactly the chunks of the event specification |
| `Chunker.SimpleChunker.AddWord` | internal/infra/uploadask/chunker/simple.go:70-101 | one word: long words split, full buffers flushed, overlap carried, the counter always the length of the buffer |
| `Chunker.SimpleChunker.AddPiece` | internal/infra/uploadask/chunker/simple.go:73-88 | one piece of an over-long word gets a chunk of its own, except that the last piece stays open |
| `Chunker.SimpleChunker.FlushBuffer` | internal/infra/uploadask/chunker/simple.go:49-65 | a blank buffer emits nothing, any other its trimmed text with the next index |
| `Chunker.SimpleChunker.SplitLongWord` | internal/infra/uploadask/chunker/simple.go:144-158 | the slicing loop yields the pieces of the specification |
| `Chunker.PiecesOfWord` | internal/infra/uploadask/chunker/simple.go:144-158 | the pieces concatenate to the word; all but the last have the maximal length, none is empty |
| `Chunker.ExpandedWord` | internal/infra/uploadask/chunker/simple.go:73-75 | words of at most 5*max runes stay whole, longer ones are cut into pieces of exactly 5*max runes and a rest |
| `Chunker.ChunksConserveWords` | internal/infra/uploadask/chunker/simple.go:35-158 | nothing is lost or reordered: without the overlaps the chunks hold the words of the text, over-long ones cut into their pieces |
| `Chunker.ChunkWords` | internal/infra/uploadask/chunker/simple.go:35-142 | whatever the encoder, chunk k has index k and consists of the words of the tail of chunk k-1, or of nothing when it opens with a piece, followed by at least one word of its own; without an encoder the tail is exactly the last overlap words |
| `Chunker.ChunkSizes` | internal/infra/uploadask/chunker/simple.go:35-142 | chunks are trimmed and non-empty and, whatever the encoder, at most 5*max runes and the overlap they take over; without an encoder, or with no overlap, at most (overlap+1)*(5*max+1)-1 runes; and when words are counted at most max(max-1, overlap+1) tokens |
| `Chunker.CutsAreForced` | internal/infra/uploadask/chunker/simple.go:67-104 | a word opens a chunk only if it no longer fitted behind the previous one, whatever stands behind something in a chunk did fit, and every piece opens a chunk, in which nothing follows unless it is the last piece of its word |
| `Chunker.ChunkCuts` | internal/infra/uploadask/chunker/simple.go:90-96 | a word opens chunk k only if it and the buffered text of chunk k-1, which is its content, one space and line ends, have more than 5*max runes or at least max tokens, counted by the encoder or as words |
| `Chunker.ChunkFits` | internal/infra/uploadask/chunker/simple.go:90-96 | every further word of a chunk fitted both limits behind the words the buffer held |
| `Chunker.OverlapIsTail` | internal/infra/uploadask/chunker/simple.go:92-96 | the overlap is what the encoder decodes from the last tokens of the previous chunk, or its last words, all of it when it has no more than that, and nothing before a piece |
| `Chunker.OneChunkIff` | internal/infra/uploadask/chunker/simple.go:35-109 | whatever the encoder, a text without over-long words is one chunk if and only if, laid out in one buffer, it is within 5*max runes and below max tokens up to the end of every word but the first; and then the chunk is that layout |
| `Chunker.OneChunkOfWords` | internal/infra/uploadask/chunker/simple.go:35-120 | when words are counted that is: it has one word, or at most 5*max runes and fewer than max words |
| `Chunker.WholeOfLine` | internal/infra/uploadask/chunker/simple.go:97-104 | the layout of a single line is its words with one space between them |
| `Chunker.WholeOfLines` | internal/infra/uploadask/chunker/simple.go:41-104 | between two lines, which a line feed or a carriage return ends, stand a space and a line feed |
| `Chunker.ChunksOfBlankText` | internal/infra/uploadask/chunker/simple.go:36-39 | there are no chunks exactly when there are no words |
| `Text.FieldsByLine` | internal/infra/uploadask/chunker/simple.go:41-68 | splitting into lines first makes no difference to the words of a text |
| `MessageLog.MemoryMessageLog.Append` | internal/infra/uploadask/memory/memory.go:30-42 | the message is appended to its session, with the next id and the present time where it has none |
| `MessageLog.MemoryMessageLog.ListRecent` | internal/infra/uploadask/memory/memory.go:45-77 | the selected messages are, in order, the longest suffix of the user's messages within both budgets |
| `MessageLog.ReverseInPlace` | internal/infra/uploadask/memory/memory.go:72-76 | the in-place swap loop reverses the array |
| `MessageLog.SqliteListRecent` | internal/infra/uploadask/memory/sqlite.go:39-83 | whatever the order of the table, the selected messages are the longest suffix within the budget and the row limit of the user's messages of the session in time order |
| `MessageLog.ScanRows` | internal/infra/uploadask/memory/sqlite.go:56-82 | the scan over the rows, newest first, with its early exits and the reversal in place |
| `MessageLog.ByTimeSorts` | internal/infra/uploadask/memory/sqlite.go:44-50 | the query returns all selected rows, ordered by time and then by id |
| `MessageLog.ByTimeIsAppendOrderIff` | internal/infra/uploadask/memory/sqlite.go:44-50 | with ids given out in append order this is the append order exactly when no message is stamped earlier than one appended before it |
| `MessageLog.LongestIsUnique` | internal/infra/uploadask/memory/memory.go:45-77 | the budgets determine the selection |
| `MessageLog.ScansAgreeIff` | internal/infra/uploadask/memory/sqlite.go:39-83 | the two scans select the same messages exactly when a count is asked for, the user has at most 200 messages, or 201 of them would break the budget |
| `MessageLog.ScansDiffer` | internal/infra/uploadask/memory/sqlite.go:39-83 | a log of 201 messages on which they differ |
| `MessageLog.LoadHistory` | internal/domain/uploadask/service.go:375-385 | the history is the longest fitting suffix of at most 50 messages with its token total, which never exceeds a positive budget, and empty when there is no log, it is not wanted or reading fails |
| `MessageLog.NewestIsReplayed` | internal/infra/uploadask/memory/memory.go:45-77 | the newest message is always the last one selected, unless it alone exceeds the budget, and then nothing is selected |
| `MessageLog.SumOf` | internal/domain/uploadask/service.go:611-619 | the loop sums the token counts |
| `MessageLog.OwnCount` | internal/infra/uploadask/memory/memory.go:53-57 | the messages scanned are the user's and no others, each as often as it stands in the log |
| `MessageLog.SumOfCounts` | internal/infra/uploadask/memory/memory.go:61-66 | negative token counts add nothing |
| `MessageLog.OfSessionCount` | internal/infra/uploadask/memory/sqlite.go:44-50 | the rows selected are those of the session and no others |
| `Ranking.CosineSimilarity` | internal/infra/uploadask/memory/memory.go:202-219 | the loop with its three accumulators computes the cosine, and 0 for vectors of different or zero length |
| `Ranking.CauchySchwarz` | internal/infra/uploadask/memory/memory.go:202-219 | the squared dot product is at most the product of the squared lengths |
| `Ranking.CosineInUnitInterval` | internal/infra/uploadask/memory/memory.go:202-219 | every score lies in [-1, 1], wherever the square root is one |
| `Ranking.CosineOfSelf` | internal/infra/uploadask/memory/memory.go:202-219 | a non-zero vector scores 1 against itself |
| `Ranking.CosineIsProduct` | internal/infra/uploadask/memory/memory.go:202-219 | the score times both lengths is the dot product, and 0 for vectors of different or zero length |
| `Ranking.DotOfParts` | internal/infra/uploadask/memory/memory.go:208-212 | the dot product of two vectors is the sum of those of their parts |
| `Ranking.ExchangeSort` | internal/infra/uploadask/memory/memory.go:145-152 | the in-place exchange sort leaves a descending permutation |
| `Ranking.Rank` | internal/infra/uploadask/memory/memory.go:145-156 | sorting and cutting gives a top-k list of exactly the candidates: no omitted one outscores a returned one |
| `Ranking.TopOfTop` | internal/domain/uploadask/service.go:297-299 | cutting a top list again gives the shorter top list |
| `MemoryStore.MemoryStore.Upsert` | internal/infra/uploadask/memory/memory.go:96-121 | keyed insert or replace, keeping the old id, in the session's bucket only |
| `MemoryStore.MemoryStore.Prune` | internal/infra/uploadask/memory/memory.go:160-198 | the bucket of the named session, or every bucket when none is named, is rebuilt from the user's records, stably sorted by importance and age and cut at the limit |
| `MemoryStore.MemoryStore.PrunedBucket` | internal/infra/uploadask/memory/memory.go:177-195 | one bucket: filtered by user, and sorted and cut when it is over the limit |
| `MemoryStore.MemoryStore.Search` | internal/infra/uploadask/memory/memory.go:124-157 | the top k of the user's memories by cosine |
| `MemoryStore.SearchReturns` | internal/infra/uploadask/memory/memory.go:124-157 | the result holds exactly the user's own memories with an embedding, each with its cosine and as often as stored, for k <= 0; for k > 0 at most k, fewer only if there are no more, and no memory left out outscores a returned one |
| `MemoryStore.UpsertKeepsIds` | internal/infra/uploadask/memory/memory.go:106-119 | no id in the bucket changes, and a record is added exactly when none has its user, source and content |
| `MemoryStore.PruneKeepsBest` | internal/infra/uploadask/memory/memory.go:177-195 | only own records are kept, up to the limit, and none is dropped for one less important, or as important and older |
| `MemoryStore.PruneKeepsEarliest` | internal/infra/uploadask/memory/memory.go:187-195 | the sort is stable: among records of equal priority the earliest are kept |
| `MemoryStore.UpsertIsPut` | internal/infra/uploadask/memory/memory.go:96-121 | on a bucket with distinct keys the upsert is a put on the set of records |
| `MemoryStore.PruneIsTop` | internal/infra/uploadask/memory/memory.go:160-198 | pruning keeps exactly the limit records of highest priority |
| `MemoryStore.TopSize` | internal/infra/uploadask/memory/memory.go:160-198 | those are limit many, or all there are |
| `MemoryStore.PutCovers` | internal/infra/uploadask/memory/memory.go:96-121 | a store that agreed with the unpruned one above its limit still does after the same save |
| `MemoryStore.PruningEarlyLosesNothing` | internal/infra/uploadask/memory/memory.go:96-198 | over every run of saves that never lower a priority and prunes, after every prune the bucket holds the top records of a store that never pruned |
| `MemoryStore.SameTopIff` | internal/infra/uploadask/memory/memory.go:160-198 | a smaller store has the same top records exactly when each record it misses has limit many kept ones above it |
| `MemoryStore.SaveAgreesIff` | internal/infra/uploadask/memory/memory.go:96-121 | any save, lowering or not, leaves the two stores with the same top exactly when each missing record that it brings the kept record of its key below has more than limit many kept ones above it |
| `MemoryStore.AgreesThroughoutIff` | internal/infra/uploadask/memory/memory.go:96-198 | over every run, lowering or not, a prune at any moment would leave the top of a store that never pruned if and only if every save is harmless in this sense |
| `MemoryStore.LoweringLosesRecords` | internal/infra/uploadask/memory/memory.go:96-198 | a run whose last save is not, and the record it loses |
| `MemoryTurns.BucketsInEveryRun` | internal/domain/uploadask/service.go:354-373 | in every interleaving of turns a bucket holds only its owner's records, with distinct keys and ids, and at most the limit plus the turns that have saved and not pruned |
| `MemoryTurns.OthersUntouched` | internal/domain/uploadask/service.go:499-529 | no turn ever changes the bucket of another user's session |
| `MemoryTurns.SavedIsThere` | internal/domain/uploadask/service.go:499-529 | in every interleaving a saved memory is in its session afterwards, every record of another key stays, and no other session changes |
| `MemoryTurns.PruneDropsTheWorst` | internal/domain/uploadask/service.go:499-529 | a prune leaves other sessions alone and drops a record only at the limit and never for one of lower priority |
| `Retrieval.ChunkRepository.SearchSimilar` | internal/infra/uploadask/repo/memory.go:145-190 | the loop over the documents and the sort return the chunks of the passing documents, best first, whatever the map order |
| `Retrieval.ChunkRepository.AppendScores` | internal/infra/uploadask/repo/memory.go:170-178 | the inner loop appends every chunk of the document with its cosine |
| `Retrieval.SearchReturnsExactly` | internal/infra/uploadask/repo/memory.go:145-190 | a result is in it exactly when it is a chunk of a document of the user that passes the filters, with its cosine |
| `Retrieval.SearchCounts` | internal/infra/uploadask/repo/memory.go:145-190 | each chunk is returned as often as it is stored, whatever order the documents are visited in |
| `Retrieval.CutForAnswer` | internal/domain/uploadask/service.go:264-299 | the cut for an answer is a top-k list of the candidates, with the source's defaults for k |
| `UploadProtocol.InsertBatch` | internal/infra/uploadask/repo/sqlite.go:154-181 | the insert loop is all or nothing, and succeeds exactly when no call fails and no (document, index) is taken |
| `UploadProtocol.Service.UpdateStatus` | internal/infra/uploadask/repo/sqlite.go:36-43 | only the status of the document changes, and a lost reply is an error although it did |
| `UploadProtocol.Service.ProcessDocument` | internal/domain/uploadask/service.go:179-256 | one job: its effects and its result are those of delivering the job to the state machine and making its calls in order with the given outcomes, uninterrupted, until it is over |
| `UploadProtocol.Service.ReadStoredFile` | internal/domain/uploadask/service.go:201-218 | the lookup and the reading of the file, and which failures are recorded on the document |
| `UploadProtocol.Service.StoreChunks` | internal/domain/uploadask/service.go:220-249 | chunking and embedding, and their recorded failures |
| `UploadProtocol.Service.StoreBatch` | internal/domain/uploadask/service.go:247-253 | the batch and the final status, or the recorded failure |
| `UploadProtocol.NeverPartial` | internal/domain/uploadask/service.go:179-256 | in every interleaving of any number of jobs and uploads with any call failing, a document's rows are none or the chunker's full list, a processed document has it, and a search of processed documents sees all rows of a document or none |
| `UploadProtocol.FullListNumbered` | internal/domain/uploadask/service.go:228-246 | the full list is numbered 0..n-1 and holds the text and token count of every chunk |
| `UploadProtocol.AtMostOneBatch` | internal/infra/sqlite/db.go:95-105 | no two steps of a run both store rows of one document |
| `UploadProtocol.NilMeansProcessed` | internal/domain/uploadask/service.go:188-255 | when a job returns without an error its document is processed, also with overlapping jobs |
| `UploadProtocol.ProcessedIsFinalIff` | internal/domain/uploadask/service.go:188-255 | a processed document stays processed in every continuation exactly when no job of it is past its status check with a status still to write |
| `UploadProtocol.ProcessedAbsorbing` | internal/domain/uploadask/service.go:188-255 | when the jobs of a document do not overlap, processed is absorbing over all retries and redeliveries |
| `UploadProtocol.RefusedBatchFails` | internal/domain/uploadask/service.go:194-249 | when the rows are already stored and another job is past its status check, all its calls work, the unique key refuses its batch, and the document ends failed with the table unchanged |
| `UploadProtocol.RefusedBatchIsFinal` | internal/domain/uploadask/service.go:194-255 | and unless yet another job is about to record the rows, nothing afterwards makes it processed again |
| `UploadProtocol.OverlapUndoesProcessed` | internal/domain/uploadask/service.go:188-255 | two overlapping jobs with every call of both working: the document is processed, then failed, and never processed again although all its rows are stored |
| `UploadProtocol.JobSucceeds` | internal/domain/uploadask/service.go:179-256 | a new job whose calls all work processes any document without rows |
| `UploadProtocol.JobDeclined` | internal/domain/uploadask/service.go:181-192 | a job that cannot load its document, for a failed call, a missing document or another user, changes nothing, and neither does one that finds it processed, which succeeds |
| `UploadProtocol.JobStopsEarly` | internal/domain/uploadask/service.go:194-207 | a job that stops at marking its document or finding the file records no failure |
| `UploadProtocol.JobEnds` | internal/domain/uploadask/service.go:209-256 | for all outcomes of the remaining calls, the status, the table and the result of a job: one that stops at reading, at a file without words, at embedding or at inserting ends failed if its last status write has its effect; rows are stored exactly when there are none and the insertion has its effect; and then the document is processed |
| `UploadProtocol.WorkingJobEnds` | internal/domain/uploadask/service.go:179-256 | with every call working the document ends processed if and only if its file has words and no rows of it were stored, and failed otherwise, with the table to match |
| `UploadProtocol.FailureIsRecorded` | internal/domain/uploadask/service.go:209-249 | in any interleaving, a job that stops at reading, chunking, embedding or inserting leaves its document failed as soon as its last status write has its effect |
| `UploadProtocol.CanBeProcessedIff` | internal/domain/uploadask/service.go:246-252 | an unprocessed document with a non-blank file can still become processed exactly when its rows are not stored or a job is about to record that they are |
| `QuestionIndex.MemoryRepository.FindExact` | internal/infra/faqrepo/memory_repository.go:37-46 | the record stored for the text, if any |
| `QuestionIndex.MemoryRepository.FindBySemanticHash` | internal/infra/faqrepo/memory_repository.go:49-61 | the record stored for the hash, and nothing for the hash 0 |
| `QuestionIndex.MemoryRepository.FindNearest` | internal/infra/faqrepo/memory_repository.go:64-85 | a record at minimal distance with that distance, whatever the map order |
| `QuestionIndex.MemoryRepository.InsertQuestion` | internal/infra/faqrepo/memory_repository.go:88-111 | one insertion updates the counter and the three maps together |
| `QuestionIndex.CoherentIffDistinctTexts` | internal/infra/faqrepo/memory_repository.go:20-111 | the maps agree exactly when no text is stored twice |
| `QuestionIndex.InsertCoherentIff` | internal/infra/faqrepo/memory_repository.go:88-111 | inserting keeps them coherent exactly when the text is new |
| `QuestionIndex.DistanceOfProducts` | internal/infra/faqrepo/memory_repository.go:114-125 | the squared distance obeys the law of cosines over the common dimensions |
| `AnswerCache.MemoryStore.GetAnswer` | internal/infra/faqstore/memory_store.go:35-53 | an answer is found exactly when it is stored and not expired, and an expired one is dropped |
| `AnswerCache.MemoryStore.SaveAnswer` | internal/infra/faqstore/memory_store.go:56-68 | the answer replaces the one stored for its question, expiring only with a positive time to live |
| `AnswerCache.SavedIsFound` | internal/infra/faqstore/memory_store.go:35-68 | a saved answer is found until its time to live has passed and dropped by a later lookup, and no other answer is affected |
| `SmartFaq.Service.Answer` | internal/domain/faq/service.go:48-204 | one call: its effects and reply are allowed by the specification of the plan, the match, the cache and the insertion, and exactly the questions replied to are counted, so that the counters always are those of the questions answered so far |
| `SmartFaq.Service.Reply` | internal/domain/faq/service.go:60-200 | the call up to its reply |
| `SmartFaq.Service.Search` | internal/domain/faq/service.go:72-131 | one lookup finds a record, finds that there is none, or fails for want of an embedding |
| `SmartFaq.Service.GenerateAndCache` | internal/domain/faq/service.go:232-247 | a generated answer is cached for the question, and a failed generation changes nothing |
| `SmartFaq.Service.AnswerMatched` | internal/domain/faq/service.go:144-164 | a match replies from the cache or generates again |
| `SmartFaq.Service.AnswerNew` | internal/domain/faq/service.go:165-200 | a miss stores the question with its embedding and hash and generates |
| `SmartFaq.StoredTextReplies` | internal/domain/faq/service.go:72-83 | in exact and hybrid mode a stored text is replied to as exactly that question, without an embedding |
| `SmartFaq.NoEmbeddingFails` | internal/domain/faq/service.go:84-170 | any other call whose embedding does not work fails and changes nothing |
| `SmartFaq.SameHashReplies` | internal/domain/faq/service.go:84-106 | in hash mode a stored question with the same non-zero hash is replied to |
| `SmartFaq.NearestReplies` | internal/domain/faq/service.go:107-132 | in similarity mode, and in hybrid mode when the text itself is not stored, a question with a stored one within the threshold is replied to as a nearest stored question, and stores nothing |
| `SmartFaq.StoresIff` | internal/domain/faq/service.go:68-200 | a call stores its question, under the next id, if and only if the text is not blank, the embedding works and no lookup named by its mode string finds anything, mode by mode |
| `SmartFaq.SameHashIff` | internal/domain/faq/service.go:310-315 | two texts have one hash exactly when their embeddings lie on the same side of each of 64 planes |
| `SmartFaq.StoredAgainIff` | internal/domain/faq/service.go:68-132 | a stored question is missed, whatever the mode, exactly in hash mode with a hash of zero |
| `SmartFaq.DistinctAfterCallIff` | internal/domain/faq/service.go:165-190 | from a sound world one call leaves the texts distinct exactly unless it asks a stored question again in hash mode with a hash of zero |
| `SmartFaq.TextsStayDistinct` | internal/domain/faq/service.go:72-190 | in every run without such a call the stored texts are pairwise distinct and the maps coherent, over all modes and failures |
| `SmartFaq.DistinctThroughoutIff` | internal/domain/faq/service.go:72-190 | over all runs, modes and failures, the stored texts are pairwise distinct all along exactly when no call asks a stored question again in hash mode with a hash of zero |
| `SmartFaq.TextStoredTwice` | internal/domain/faq/service.go:84-105 | a run of two calls that stores one text twice |
| `SmartFaq.GenerationsAreApart` | internal/domain/faq/service.go:144-200 | in every run two answers generated for one question are more than the time to live apart, and without one there is never a second |
| `SmartFaq.CachedReplyIsLatest` | internal/domain/faq/service.go:144-200 | a reply from the cache is the latest answer generated for the matched question and has not outlived its time |
| `AnswerRaces.HitsWereSaved` | internal/infra/faqstore/memory_store.go:35-68 | with the two locked sections of a lookup interleaved with saves and other lookups, a hit was saved for that question and had not expired |
| `AnswerRaces.DropsLiveIff` | internal/infra/faqstore/memory_store.go:46-51 | a lookup drops a live answer exactly when what it read has expired and an unexpired answer saved between the two sections is stored |
| `AnswerRaces.UndisturbedIsAtomic` | internal/infra/faqstore/memory_store.go:35-53 | a lookup during which nothing was saved and nothing dropped for its own question does what it would under one lock, whatever was saved for others |
| `AnswerRaces.FreshAnswerCanBeLost` | internal/infra/faqstore/memory_store.go:46-51 | an interleaving that loses an answer just saved |
| `QuestionText.NormalizeQuestion` | internal/domain/faq/normalize.go:8-34 | the one-pass loop with its flag computes the words, in lower case, joined by single spaces |
| `QuestionText.SameQuestionIff` | internal/domain/faq/normalize.go:8-34 | two questions have one canonical text exactly when they have the same words in the same order |
| `QuestionText.CanonicalIsFinal` | internal/domain/faq/normalize.go:8-34 | the canonical text is its own canonical text |
| `QuestionText.WordsOfWord` | internal/domain/faq/normalize.go:8-33 | a stretch of letters and digits is one word, in lower case |
| `QuestionText.WordsEndAt` | internal/domain/faq/normalize.go:8-33 | any other rune separates words and is in none |
| `Trending.MemoryTrending.IncrementQuery` | internal/infra/faqstore/memory_store.go:71-82 | the counter of the canonical text grows by one, its first display is kept, and the empty text is ignored |
| `Trending.CountsSameWords` | internal/domain/faq/service.go:202-204 | over every run a counter is the number of answered questions with the same words, and its display is the first of them |
| `SemanticHasher.Hasher.constructor` | internal/domain/faq/semantic_hash.go:25-33 | a non-positive plane count is replaced by 64 |
| `SemanticHasher.Hasher.Hash` | internal/domain/faq/semantic_hash.go:35-64 | the hash depends on seed, plane count and vector only, whatever was hashed before, and is missing for an empty vector |
| `SemanticHasher.Hasher.EnsurePlanes` | internal/domain/faq/semantic_hash.go:66-98 | afterwards the cached planes are those of the dimension, drawn again only when it changed |
| `SemanticHasher.Hasher.PackSigns` | internal/domain/faq/semantic_hash.go:47-61 | the bit loop packs the signs, first plane highest, stopping after 64 |
| `SemanticHasher.PackStep` | internal/domain/faq/semantic_hash.go:47-61 | setting the next lower bit appends a sign to the packed ones |
| `SemanticHasher.CollideIffSameSides` | internal/domain/faq/semantic_hash.go:35-64 | two vectors of one length collide exactly when they lie on the same side of each of the first 64 planes |
| `SemanticHasher.ZeroIffBehindAllPlanes` | internal/domain/faq/semantic_hash.go:35-64 | the hash fits 64 bits, and is 0 exactly for a vector strictly behind all of them |
| `SemanticHasher.HashIgnoresLength` | internal/domain/faq/semantic_hash.go:35-64 | scaling by a positive factor leaves the hash unchanged |
| `SemanticHasher.PlanesAreTheDraws` | internal/domain/faq/semantic_hash.go:66-98 | laid end to end the planes are the first count * dims draws of the generator |
| `SemanticHasher.DotOfCommon` | internal/domain/faq/semantic_hash.go:100-110 | the product is that of the common dimensions |
| `EmbeddingBatcher.Embed` | internal/infra/uploadask/embedder/chatgpt.go:33-86 | the loop sends the batches of the greedy split in order, stops at the first failure or over-large text, reports which it was, and succeeds exactly when there is neither |
| `EmbeddingBatcher.Flush` | internal/infra/uploadask/embedder/chatgpt.go:44-67 | an empty batch sends nothing, any other one request whose vectors are appended |
| `EmbeddingBatcher.FitIsLongest` | internal/infra/uploadask/embedder/chatgpt.go:69-81 | a batch is the longest prefix within the cap |
| `EmbeddingBatcher.GreedyIsASplit` | internal/infra/uploadask/embedder/chatgpt.go:33-86 | the batches concatenate to the texts |
| `EmbeddingBatcher.GreedyIsOptimal` | internal/infra/uploadask/embedder/chatgpt.go:33-86 | no contiguous split of the texts within the cap uses fewer requests |
| `EmbeddingBatcher.RequestsAreFull` | internal/infra/uploadask/embedder/chatgpt.go:69-81 | no request is empty or above 200000 estimated tokens, and each is followed by another only because the next text would have brought it above that |
| `EmbeddingBatcher.EstimateIsLeast` | internal/infra/uploadask/embedder/chatgpt.go:93-105 | the estimate is the least number not below half the runes nor below the words |
| `EmbeddingBatcher.SuffixNeedsNoMore` | internal/infra/uploadask/embedder/chatgpt.go:33-86 | a suffix of the texts never needs more requests than all of them |
| `EmbeddingBatcher.BatchingIsTransparent` | internal/infra/uploadask/embedder/chatgpt.go:33-86 | if each request that is sent is answered with one vector per text, output i is the vector of text i |
| `EmbeddingBatcher.AlignedIff` | internal/infra/uploadask/embedder/chatgpt.go:56-63 | for answers of any length, which are only logged, the vectors of all requests begin where their texts do exactly when every earlier request was answered with as many vectors as it had texts |
| `EmbeddingBatcher.VectorsStand` | internal/infra/uploadask/embedder/chatgpt.go:56-60 | where the vectors of a request stand in the output |
| `Migrations.FirstStatementUnique` | internal/infra/sqlite/db.go:251-263 | inserting the selected legacy rows with their own ids breaks no unique key |
| `Migrations.Database.InsertWithOwnIds` | internal/infra/sqlite/db.go:251-264 | the statement inserts exactly the rows whose id and keys are free, or nothing when one belongs to no user |
| `Migrations.Database.InsertWithNewIds` | internal/infra/sqlite/db.go:265-279 | the statement, selecting from the table as it stood, inserts each remaining row whose keys are free once, under a fresh id |
| `Migrations.Database.MigrateIdentities` | internal/infra/sqlite/db.go:243-280 | existing rows stay, new ones are whole legacy rows, every legacy row is there by one of its keys, and it succeeds exactly when every row to be moved belongs to a user |
| `Migrations.MigrationMeans` | internal/infra/sqlite/db.go:243-280 | column by column: both unique keys hold afterwards, old rows are unchanged, new ones are whole legacy rows, and a legacy row is there as a whole unless an old row had one of its keys |
| `Migrations.OwnersMean` | internal/infra/sqlite/db.go:251-279 | when a migration can succeed, column by column |
| `Migrations.NewIdsIff` | internal/infra/sqlite/db.go:251-279 | the second statement selects exactly the rows whose id was taken and whose keys were free before the first |
| `Migrations.Database.MigrateQuestions` | internal/infra/sqlite/db.go:286-296 | the free legacy questions are added, the cache is rebuilt over the result and the legacy table is gone |
| `Migrations.Database.RebuildCache` | internal/infra/sqlite/db.go:361-408 | copying the rows in any order, later ones replacing earlier ones, gives a rebuilt cache |
| `Migrations.LegacyQuestionKeptIff` | internal/infra/sqlite/db.go:338-359 | texts stay distinct; a legacy question is stored afterwards exactly when its text was stored before or its id was free |
| `Migrations.FreeQuestionsAdded` | internal/infra/sqlite/db.go:338-359 | stored questions stay, and exactly the legacy questions whose id and text are free are added, under their ids |
| `Migrations.RebuildIsIdempotent` | internal/infra/sqlite/db.go:361-408 | rebuilding twice gives the same cache as rebuilding once |
| `Migrations.AnswersMatchIff` | internal/infra/sqlite/db.go:361-408 | every rebuild keys each answer to the question of its own text exactly when no cached row has the id of a question and the text of none |
| `Migrations.LostQuestionMisleads` | internal/infra/sqlite/db.go:338-408 | after a legacy question lost its id, its cached answer stays under the id of another question |
| `Summarizer.FindMarker` | internal/domain/summarizer/service.go:231-235 | the first place where the marker stands in any case, or -1 when it stands nowhere |
| `Summarizer.Truncate` | internal/domain/summarizer/service.go:248-256 | never longer than a positive limit, and unchanged when short enough |
| `Summarizer.TruncateKeepsStart` | internal/domain/summarizer/service.go:248-256 | a summary that is not empty stays so and keeps its first rune |
| `Summarizer.TruncateCuts` | internal/domain/summarizer/service.go:248-256 | a longer text is cut to the limit, with room for three dots in place of what is cut when the limit is above three, losing white space only |
| `Summarizer.KeywordEndsAt` | internal/domain/summarizer/service.go:186-190 | a keyword ends at a comma, a semicolon or a line end |
| `Summarizer.HyphenIsBullet` | internal/domain/summarizer/service.go:191-192 | one hyphen in front of a keyword is dropped |
| `Summarizer.ParseFails` | internal/domain/summarizer/service.go:158-180 | which replies are not parsed, and with which error; without a summary marker the whole reply is shown |
| `Summarizer.FrontIsIgnored` | internal/domain/summarizer/service.go:164-175 | whatever stands in front of the first summary marker is ignored |
| `Summarizer.SplitKeywords` | internal/domain/summarizer/service.go:186-202 | the token loop yields the cleaned tokens that are not empty, up to the limit |
| `Summarizer.KeywordsRoundTrip` | internal/domain/summarizer/service.go:186-202 | a comma list of keywords is read back up to the limit exactly when the first does not start with a hyphen, or the first limit+1 of them are lone hyphens |
| `Summarizer.RoundTrip` | internal/domain/summarizer/service.go:158-202 | the summary of a formatted reply is read back exactly when it holds no keyword marker, and the whole reply exactly when also its keywords are read back |
| `Summarizer.ExtractIsParsed` | internal/domain/summarizer/service.go:215-229 | on a reply that parses, the extracted summary is the parsed one |
| `Summarizer.SendPartials` | internal/domain/summarizer/service.go:98-119 | the partials are exactly the non-empty summaries of the first deltas, none shown twice in a row |
| `Summarizer.StreamSummary` | internal/domain/summarizer/service.go:98-140 | for every split into deltas there is one completed chunk, the last, exactly when the reply parses; it equals the answer without streaming, and the last partial already shows its summary |
| `Retry.Recorder.Do` | internal/interface/http/retry_middleware.go:99-113 | the recorder's fields are those of the run: the first status counts, headers are set, added to or deleted, the body is appended |
| `Retry.Recorder.Commit` | internal/interface/http/retry_middleware.go:115-132 | the client gets exactly the recorded response, once, with the headers replaced |
| `Retry.HeaderIs` | internal/interface/http/retry_middleware.go:99-101 | a header has the value it was last set to, unless it was deleted after that, and then all values added since, in order |
| `Retry.StatusIsFirst` | internal/interface/http/retry_middleware.go:103-109 | the status is the first one written, or 200 |
| `Retry.WithRetry` | internal/interface/http/retry_middleware.go:43-63 | exactly one response is sent, that of the first attempt without a server error or else of the last, and no attempt is made after it |
| `Retry.WaitedClosed` | internal/interface/http/retry_middleware.go:43-49 | the pauses before attempt n add up to the base times 2^(n-1) - 1 |

## Left out

- Chunker.ChunkSizes: with an encoder and an overlap the bound names the overlap itself, because the encoder is any pair of functions and nothing is known of what it decodes from the last tokens of a text.
- MemoryStore.PruningEarlyLosesNothing: compares records without their ids, because a record saved again after it was pruned gets a new id, and assumes pairwise distinct priorities; runs with saves that lower a priority are decided by AgreesThroughoutIff.
- Retrieval.ChunkRepository.SearchSimilar: the SQLite variant, which orders ties by time and chunk index, is not modelled.
- UploadProtocol.Service.ProcessDocument: an embedder that returns fewer vectors than texts panics this job; that the whole process ends with it is one of the runs in which no other job goes on.
- QuestionIndex.MemoryRepository.FindNearest: compares squared distances, and SmartFaq the squared threshold, instead of taking roots; a negative threshold admits nothing.
- SemanticHasher.Hasher.Hash: the 64-bit hash is a natural number whose bits are set one by one; the random generator is an arbitrary function of seed, dimension and position.
- SmartFaq.Service.Answer: one call at a time; two concurrent calls can both miss and both insert a text, since check and insert are not atomic. The embedder is a function of the text, and token usage, durations and the recommended questions are not part of the reply.
- AnswerCache.MemoryStore.GetAnswer: its two locked sections are one step here; AnswerRaces has them apart.
- QuestionText.NormalizeQuestion: which runes are letters and digits and what lower case is are parameters, one rune to one rune.
- Trending.MemoryTrending.IncrementQuery: sorting and cutting the counters for display is not modelled.
- Migrations.Database.MigrateIdentities: creating tables and indexes, filling in missing times and rebuilding an old table definition are not modelled, nor is a failure of the database other than a violated key.
- Summarizer.Truncate: runes are one byte long, so that a cut never falls inside one.
- Summarizer.FindMarker: case folding is that of ASCII letters.
- Retry.WithRetry: the conditions under which a request is not retried at all (other methods, multipart bodies, excluded paths, one attempt, an over-large body).
- Rounding, NaN, overflow of numbers and durations, and invalid UTF-8.
- The Postgres, pgvector, Valkey and R2 adapters: clients of other systems.
- HTTP handlers, cookies, JSON, JWT, bcrypt, OAuth: their guarantees are those of libraries.
- The prompt texts, session summaries by language model and the summary trigger.
- Configuration loading and validation: the validated bounds are taken as preconditions.
- The UV index and data.gov clients, the authentication service and the user repositories: they keep no shared state whose guarantees go beyond one call.
