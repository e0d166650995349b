# PDFTalk: a model of its own logic, with proofs

PDFTalk answers questions about uploaded documents. Most of the service moves data between a database, a queue,
an object store and an AI provider. This project models the logic that is its own and proves what that logic
guarantees, for all inputs and all runs.

**The answer stream** (`Text`, `Json`, `TextDecoding`, `StreamClient`, `SseServer`, `Llm`, `EndToEnd`, `ChatView`).
The server prints tokens, citations, a fallback signal and a terminal frame as server-sent events (a subset of
section 9.2 of the WHATWG HTML standard) with ASCII-only JSON payloads (section 7 of RFC 8259, Python's
`json.dumps`). The browser decodes arbitrary network chunks, carries an incomplete frame over in a buffer, parses
each payload and folds the events into a chat message. A Python string is a sequence of code points and a
JavaScript string a sequence of UTF-16 units. Printing and parsing undo each other, the incremental reader equals
the reader of the whole input, and what is shown is what was saved, or a prefix of it when the connection breaks.

**Ingestion** (`Chunking`, `Embedding`, `Ingest`). The sliding-window chunker over text blocks refines a function of
the whole token stream; vectors returned in any order end up with their own text.

**Documents** (`Documents`, `Lifecycle`). The status machine, the transactions of endpoints, worker and stale sweep,
and all their interleavings. Each database transaction is one step.

**Redis** (`Redis`, `CircuitBreaker`, `Quota`). Expiring keys on a clock, the circuit breaker and the daily quota. Each
helper is one step.

**Accounts** (`RefreshTokens`, `Lockout`). Refresh-token rotation with its grace period and the login lock, over runs.

**Prompt, retrieval, polling** (`Prompt`, `Retrieval`, `Polling`). Greedy packing, the history suffix, the fallback flag
against a full scan, and the bound on status requests.

`dafny verify dfyconfig.toml` checks the whole project. Nothing was executed.

Where the code and its own documentation disagree, the model follows the code:

- A refresh token is not deleted on first use; it stays good for 60 seconds (`RefreshTokens.OneTimeUseFails`,
  `RefreshTokens.ReuseOnlyInGracePeriod`). The module text of `backend/app/auth/tokens.py` says it is deleted.
- The daily quota key is described as expiring an hour after midnight. `PERSIST` runs on every increment, so the
  key expires exactly when the user was charged once that day (`Quota.ExpiryLostOnSecondCharge`).
- The transition table is described as the authority on status changes. Workers write the status directly:
  `Lifecycle.StatusStaysInTable` says exactly which steps leave the table, `Lifecycle.StatusChanges` which changes
  happen, each with a run; and the table refuses the move that the enqueue-failure branch of confirm-upload wants
  (`Documents.Database.ConfirmEnqueueFailed`).
- The limit of 20 documents is checked on creation only. `Lifecycle.LimitKeptExactly` says exactly which steps
  exceed it; by retries a user gets any number of documents that count (`Lifecycle.LimitUnbounded`).
- The accounting after an answer is described as never spoiling it. It does exactly when it is cancelled, as when it
  outlasts the wait for the next token (`Llm.SavedIsTheModelsText`, `Llm.StalledAccountingSpoilsTheAnswer`).
- The reload after a done event may read the chat before the server has saved the answer, and then takes the answer
  off the screen; it always takes off the fallback mark (`ChatView.ReloadKeepsTheAnswer`).
- The fallback flag is meant to say that every retrieved chunk is too far. A stored zero vector has distance NaN,
  which is neither near nor far; `Retrieval.FallbackAgreesWithScan` gives the exact condition and
  `Retrieval.ZeroVectorHidesTheFallback` an input where flag and scan differ.

## Model

| member | source | states |
|---|---|---|
| Text.Utf16Append | backend/app/routers/query.py:159 | The UTF-16 form of joined tokens is the joined UTF-16 forms, so accumulating on the server and appending in the browser agree. |
| Json.DumpsParses | backend/app/routers/query.py:161-162 | For every value, parsing what the ASCII-only printer wrote gives the value back, strings as UTF-16, with any Unicode inside. |
| Json.PutPrintable | backend/app/routers/query.py:143-183 | A printed payload contains only characters 32 to 126, so no payload can contain or fake a frame delimiter or a line break. |
| Json.NumeralValue | backend/app/routers/query.py:170-176 | A printed number is the decimal numeral of its value, without leading zeros. |
| Json.Escapes | frontend/src/lib/query.api.ts:181 | The two-character escapes mean what section 7 of RFC 8259 says, and no others exist but the hexadecimal ones. |
| Json.HexEscape | frontend/src/lib/query.api.ts:181 | A hexadecimal escape, in either case, is the code unit of its value. |
| Json.NumbersAreRead | frontend/src/lib/query.api.ts:181 | Every number of the grammar of section 6 of RFC 8259 is read as such. |
| Json.NumbersHaveParts | frontend/src/lib/query.api.ts:181 | What is read as a number has the parts of that grammar. |
| TextDecoding.DecodeAppend | frontend/src/lib/query.api.ts:139-142 | Streaming UTF-8 decoding does not depend on where the bytes are cut, even inside a character. |
| TextDecoding.DecodeEncoded | frontend/src/lib/query.api.ts:142 | The decoder undoes UTF-8 encoding for every text, but for a byte order mark at its start, which is dropped. |
| TextDecoding.CutCharacter | frontend/src/lib/query.api.ts:139-142 | A character cut short by an ASCII one becomes one replacement character. |
| TextDecoding.NoSurrogate | frontend/src/lib/query.api.ts:139-142 | The three bytes of an encoded surrogate become three replacement characters. |
| StreamClient.SplitAppend | frontend/src/lib/query.api.ts:142-147 | Splitting the carried-over buffer with more text finds the frames that splitting everything at once finds. |
| StreamClient.SplitJoins | frontend/src/lib/query.api.ts:144-147 | Frames joined with delimiters and the rest give the input back; no frame and no carried-over buffer contains a delimiter. |
| StreamClient.SplitJoin | frontend/src/lib/query.api.ts:144-147 | Splitting joined frames gives exactly those frames and an empty rest. |
| StreamClient.ReadFields | frontend/src/lib/query.api.ts:150-160 | The line loop leaves the text of the last data line and the trimmed name of the last event line, and the defaults when there is none. |
| StreamClient.LinesJoin | frontend/src/lib/query.api.ts:153-154 | Splitting a frame into lines loses nothing and leaves no line break in a line. |
| StreamClient.TrimTakesBlanks | frontend/src/lib/query.api.ts:156-157 | Trimming the event name takes away the blanks at both ends, all of them and nothing else. |
| StreamClient.TakenFor | frontend/src/lib/query.api.ts:174-224 | Exactly which data ends the stream, tells of a fallback, is passed over, is shown as it is or asks for a new login, and with which code and message an error is reported. |
| StreamClient.MetaOrEmpty | frontend/src/lib/query.api.ts:163-171 | A meta frame never ends the stream and is passed over exactly when it cannot be read; otherwise its list is told of. |
| StreamClient.HowReadingEnds | frontend/src/lib/query.api.ts:132-137 | A read that fails for another reason than an abort adds one error unless the stream had ended; the end of the stream and an abort add none. |
| StreamClient.Dispatch | frontend/src/lib/query.api.ts:149-225 | The frame loop makes the callbacks of the frames in order and stops at the first terminal one. |
| StreamClient.StreamAnswer | frontend/src/lib/query.api.ts:127-237 | For arbitrary bytes, cut in any way, aborted or failing anywhere, the incremental reader makes the callbacks of the received bytes taken as a whole. |
| StreamClient.ConsumeTextAppend | frontend/src/lib/query.api.ts:132-226 | More input only adds callbacks, and none after a terminal one. |
| SseServer.SseGenerator | backend/app/routers/query.py:133-318 | Whatever the pulls, failures and the yield at which the consumer leaves, the frames yielded and the message saved are those of the closed form: all pulled tokens concatenated, COMPLETE exactly when the model's stream ended while the consumer was there. |
| SseServer.Conclude | backend/app/routers/query.py:164-299 | Citations, the optional fallback signal and DONE after a normal end, DONE alone after a late failure, one error frame otherwise. |
| SseServer.OneTerminalFrame | backend/app/routers/query.py:145-299 | A stream that is not cut off ends with exactly one terminal frame; the last frame is terminal exactly when the run was not cancelled or cut before it. |
| SseServer.YieldedTokens | backend/app/routers/query.py:150-162 | The token frames of a run carry exactly the tokens pulled, in order. |
| SseServer.FramesOfAWholeRun | backend/app/routers/query.py:142-183 | The fallback signal is sent exactly when the answer is a fallback and ended well, the citations exactly when it ended well, each once; an error frame exactly for the failure of the model's stream; the missing documents exactly when there are any. |
| SseServer.FramesInOrder | backend/app/routers/query.py:142-183 | Missing documents, tokens, citations, fallback signal and DONE come in this order. |
| SseServer.CutRunIsAPrefix | backend/app/routers/query.py:133-185 | A consumer that leaves has got the frames up to and with the one at whose yield it left. |
| SseServer.SavedIsWhatWasSent | backend/app/routers/query.py:300-318 | The saved text is what the token frames carried, COMPLETE exactly when the model's stream ended well while the consumer was there, even if it left at a closing frame. |
| Llm.StreamLlmResponse | backend/app/services/llm.py:42-98 | Wherever the caller leaves, it gets the deltas up to there and the end of the body even when the counter call raises, except when that call is cancelled; the last usage report read is charged when the counter works. |
| Llm.RecordUsage | backend/app/utils/openai_client.py:112-133 | The counter call charges and raises when over quota, or raises because Redis failed or it was cancelled. |
| Llm.SavedIsTheModelsText | backend/app/services/llm.py:42-92 | The saved text is all the text given, COMPLETE exactly when the API stream ended well, the consumer stayed, and the counter call was not cancelled; being over quota or a failing counter change nothing. |
| Llm.GivenIs | backend/app/services/llm.py:42-47 | A caller that stays is given all deltas, one that closes at its n-th yield the first n, one whose wait is cancelled those before it. |
| Llm.LastUsageIs | backend/app/services/llm.py:46-47 | The last usage report counts, and without one nothing does. |
| Llm.ClientIsTold | backend/app/routers/query.py:185-299 | A client that stays is told of the API failure, of a timeout that cancelled a wait or the counter call, or that the answer is done, exactly one of them. |
| Llm.StalledAccountingSpoilsTheAnswer | backend/app/services/llm.py:50-66 | A run in which the whole text was given, yet the client gets a timeout error and the message is saved as TRUNCATED. |
| EndToEnd.HandleBody | frontend/src/lib/query.api.ts:149-224 | The reader turns each printed frame into its intended callback, whatever the texts contain. |
| EndToEnd.CitationsPayload | backend/app/routers/query.py:164-176 | The citations frame carries the document, file name and index of each cited chunk in order, whatever the names hold. |
| EndToEnd.ClientSeesTheRun | frontend/src/lib/query.api.ts:127-237 | For every run and every chunking, the callbacks are the meanings of the yielded frames in order, and the shown text is the saved text. |
| EndToEnd.ClientSeesAPrefix | frontend/src/lib/query.api.ts:132-236 | If only a prefix of the bytes arrives, callbacks and shown text are prefixes of the full ones. |
| EndToEnd.CallbacksFollowFrames | frontend/src/lib/query.api.ts:149-225 | For every run and chunking, the client is told of a fallback, of the end, or sent to the login page exactly when the server yielded the frame for it. |
| EndToEnd.CallbacksOfAWholeRun | backend/app/routers/query.py:142-299 | From the model's stream to the client: fallback, end and login redirect happen exactly under the server's conditions. |
| EndToEnd.TokensReachTheClient | backend/app/routers/query.py:142-162 | The callbacks are the missing documents, if any, one token callback per token in order, and then others. |
| EndToEnd.ErrorReachesTheClient | backend/app/routers/query.py:185-299 | Each failure reaches the client with its own code and message. |
| ChatView.StreamedInto | frontend/src/contexts/ChatContext.tsx:156-200 | The event reducer appends exactly the streamed text to the answer and changes no other message. |
| ChatView.MissingIdsAfter | frontend/src/contexts/ChatContext.tsx:157-161 | The list of missing documents is that of the last meta event, and stays without one. |
| ChatView.OthersUntouched | frontend/src/contexts/ChatContext.tsx:157-187 | Events of one chat leave any other chat alone, and the messages of a chat that ends in another message. |
| ChatView.ScreenShowsTheSavedText | frontend/src/contexts/ChatContext.tsx:141-202 | After a complete stream, and before the chat is reloaded, the new message is the saved text; the streaming flag is cleared exactly when a done or error callback came. |
| ChatView.ReloadKeepsTheAnswer | frontend/src/contexts/ChatContext.tsx:188-194 | The reload keeps the answer on screen exactly when the server has saved it by then or there is no text, and the fallback mark exactly when there was none. |
| Chunking.ChunkText | backend/app/services/chunking.py:18-62 | The chunks are the windows at offsets 0, 448, 896, ... of the concatenated tokens of the blocks that are not blank. |
| Chunking.AllTokensAreChunked | backend/app/services/chunking.py:33-38 | Without blank blocks the windows are those of all tokens of all blocks in order. |
| Chunking.BlankBlocksDoNotMatter | backend/app/services/chunking.py:33-35 | Removing a blank block changes nothing, wherever it is. |
| Chunking.BlockBoundariesDoNotMatter | backend/app/services/chunking.py:33-38 | Two documents whose blocks, blank ones aside, have the same tokens when put together have the same chunks. |
| Chunking.Extent | backend/app/services/chunking.py:40-60 | With the closed form for the number of chunks, every chunk starts inside the stream and exactly the last reaches its end. |
| Chunking.WindowSize | backend/app/services/chunking.py:40-60 | Each chunk has 1 to 512 tokens, all but the last exactly 512. |
| Chunking.NeighboursOverlap | backend/app/services/chunking.py:6-8 | Neighbouring chunks share exactly 64 tokens and the later one goes further. |
| Chunking.ChunksRebuildTheStream | backend/app/services/chunking.py:40-60 | The first chunk and what later chunks add rebuild the token stream. |
| Chunking.ChargedTokens | backend/app/workers/ingest.py:127-134 | The quota is charged n + 64 * (chunks - 1) tokens. |
| Embedding.OrderedAnswers | backend/app/utils/openai_client.py:205-213 | Sorting a complete reply by index puts vector i at text i, whatever order it came in. |
| Embedding.SortKeepsAll | backend/app/utils/openai_client.py:213 | The sort keeps every entry, with equal indices too, and puts none before a smaller one. |
| Embedding.BatchesOfAHundred | backend/app/services/embedding.py:104-106 | The batches put together are the texts, none empty, all but the last of 100. |
| Embedding.EmbedTexts | backend/app/services/embedding.py:72-94 | The batches' vectors in batch order, one per text; an error exactly when some reply has the wrong length. |
| Embedding.EmbeddingsAlign | backend/app/services/embedding.py:77-106 | With complete replies the concatenation is the vector of each text in order. |
| Ingest.RunPipeline | backend/app/workers/ingest.py:114-161 | Each outcome of the job body has its exact condition; on success row i holds window i, its token count and its own vector. |
| Documents.Database.TransitionStatus | backend/app/services/document_service.py:114-163 | The status changes exactly when the table allows it, the error message with FAILED only, the chunk count with READY and a count only; otherwise nothing changes. |
| Documents.Database.Create | backend/app/services/document_service.py:263-323 | A document is inserted exactly when the user has fewer than 20 non-failed ones. |
| Documents.Database.ConfirmUpload | backend/app/services/document_service.py:606-783 | Ownership, state, presence and the 10 percent size check decide between PENDING, FAILED and no change. |
| Documents.Database.ConfirmEnqueueFailed | backend/app/routers/documents.py:415-435 | The attempted move from PENDING to FAILED is refused and the row stays. |
| Documents.Database.RetryDocument | backend/app/routers/documents.py:233-258 | Exactly an owned FAILED document goes to PROCESSING. |
| Documents.Database.RetryEnqueueFailed | backend/app/routers/documents.py:270-283 | When enqueueing the retry fails, the row goes back to FAILED with that reason. |
| Documents.Database.DeleteDocument | backend/app/services/document_service.py:357-419 | Exactly the row goes, only for its owner and only when the storage deletion succeeded, and the answer says which. |
| Documents.Database.StartIngest | backend/app/workers/ingest.py:87-109 | First commit: PROCESSING, with old chunk rows removed when the status shows an earlier attempt. |
| Documents.Database.FinishIngest | backend/app/workers/ingest.py:150-172 | Second commit: rows 0 to n - 1, the count and READY together, or nothing if the document is gone. |
| Documents.Database.MarkFailed | backend/app/workers/failure_handler.py:49-63 | The failure paths write FAILED and the message whatever the status was. |
| Documents.Database.FailIngest | backend/app/workers/ingest.py:196-230 | A failing job ends in FAILED with the first 500 characters of the message, and its rows so far are committed with it. |
| Documents.Database.CleanupStaleDocuments | backend/app/workers/tasks.py:241-286 | The sweep fails exactly the uploads older than 15 minutes and the pending or processing rows older than 30, each with its reason. |
| Lifecycle.StepKeepsInvariant | backend/app/workers/ingest.py:83-172 | Every step of every actor keeps the invariant, with any number of workers but no second job for a document in progress: no rows before or during ingestion, complete rows when READY. |
| Lifecycle.ReadyDocumentsAreComplete | backend/app/workers/ingest.py:139-172 | In every state reached without a second job for a document in progress, a READY document has at least one chunk and one row per index below its count, and a FAILED one has a reason. |
| Lifecycle.OneWorkerIsEnough | backend/app/workers/worker.py:57-71 | Every state that one worker reaches is reached without a second job for a document in progress. |
| Lifecycle.OneDocumentAStep | backend/app/workers/ingest.py:83-172 | Every step but the sweep touches at most one document and one worker. |
| Lifecycle.JobsDo | backend/app/workers/ingest.py:150-230 | A finished job leaves its document READY with exactly its rows, a failed one FAILED with the reason, a crashed one as it was. |
| Lifecycle.RequestsDo | backend/app/routers/documents.py:233-258 | What retry, deletion, job start and failure handler do to their document, and when they do nothing. |
| Lifecycle.TwoWorkersDuplicateRows | backend/app/workers/worker.py:57-71 | When two workers hold one document, a reachable READY document has duplicate rows. |
| Lifecycle.NoDocumentStaysInLimbo | backend/app/workers/tasks.py:217-296 | With a last sweep at most a gap old, waiting is bounded by 15 or 30 minutes plus the gap: 20 and 35 minutes for a five-minute gap. |
| Lifecycle.StatusStaysInTable | backend/app/models/document.py:41-47 | A step keeps a status or moves it as the table allows if and only if it is not the sweep on a stale PENDING row, the failure handler on a PENDING or READY row, or the second commit on a FAILED row; those lead to FAILED, FAILED and READY. |
| Lifecycle.StatusChanges | backend/app/models/document.py:41-47 | A status change happens in some run if and only if it is in the table or PENDING to FAILED, READY to FAILED or FAILED to READY, with one worker too. |
| Lifecycle.ReadyRowsAreFrozen | backend/app/workers/ingest.py:92-97 | A step leaves a READY document as it is, fails it with its rows kept, or removes it. |
| Lifecycle.LimitKeptExactly | backend/app/services/document_service.py:36-58 | From within the limit, a step of a run stays within it if and only if it does not revive a failed document of a user at the limit: by a retry, a job start or a second commit. |
| Lifecycle.LimitUnbounded | backend/app/routers/documents.py:250-258 | For every n, one worker and one user reach a state with n documents that count. |
| Redis.Client.IncrementCounter | backend/app/utils/redis_client.py:52-58 | The count goes up by one and the expiry is set on the first write only. |
| Redis.Client.IncrementCounterBy | backend/app/utils/redis_client.py:89-120 | The amount is added to key and score, any expiry is removed, and expiries are set when the count equals the amount. |
| CircuitBreaker.BreakerRefinesHistory | backend/app/utils/openai_client.py:78-104 | The expiring keys say open exactly when some failure in the last 60 seconds brought the count to three; expiry never hides an open breaker and a success never closes one. |
| CircuitBreaker.CountIsRecent | backend/app/utils/openai_client.py:73-93 | The count covers consecutive failures less than 120 seconds after its first. |
| CircuitBreaker.ThreeFailuresOpen | backend/app/utils/openai_client.py:73-104 | Three failures in a row within 120 seconds open the breaker for 60 seconds when nothing was counted before. |
| CircuitBreaker.OpenNeedsThreeFailures | backend/app/utils/openai_client.py:73-104 | An open breaker has seen three failures in a row within 120 seconds, the last less than 60 seconds ago. |
| CircuitBreaker.RecordFailure | backend/app/utils/openai_client.py:89-104 | One failure is counted and the open mark set from the third on. |
| CircuitBreaker.GuardedCall | backend/app/utils/openai_client.py:160-197 | Over the stored keys and with other callers at work meanwhile: no request when open, else at most three; a success is recorded and returned, an answer of 500 or more recorded as one failure, a smaller one raised and not recorded, rate limits not recorded; result and waiting time follow. |
| CircuitBreaker.NoRequestWhileOpen | backend/app/utils/openai_client.py:78-82 | Over every run of guarded calls the store follows the recorded history, and a call sends its first request exactly when the history does not say open. |
| CircuitBreaker.FailureResultFollowsHistory | backend/app/utils/openai_client.py:184-192 | A call that meets a 5xx ends with the breaker error exactly when the history up to its second look says open. |
| Quota.CountersAreSums | backend/app/utils/redis_client.py:89-120 | On one day each counter and leaderboard score is the sum of the user's charges and still there at any time of the day. |
| Quota.RaisedExactlyPastTheLimit | backend/app/utils/openai_client.py:112-133 | The quota exception is raised exactly by charges whose running total passes the limit. |
| Quota.CheckAndIncrementTokenUsage | backend/app/utils/openai_client.py:112-133 | The charge is recorded in any case, and the exception depends on the new total. |
| Quota.ExpiryLostOnSecondCharge | backend/app/utils/redis_client.py:101-118 | The counter has an expiry exactly when the user was charged once. |
| Quota.ExpiresAnHourAfterMidnight | backend/app/utils/redis_client.py:29-34 | An expiry set now falls on an hour after the next UTC midnight, up to the second. |
| RefreshTokens.TokenTable.StoreRefreshToken | backend/app/auth/tokens.py:185-210 | One new row with a lifetime of seven days. |
| RefreshTokens.TokenTable.ValidateAndRotate | backend/app/auth/tokens.py:213-281 | Accepts exactly the known, unexpired tokens that are unused or within 60 seconds of first use, marks the first use and adds one row for seven days; otherwise removes the row. |
| RefreshTokens.TokenTable.RevokeAll | backend/app/auth/tokens.py:299-316 | Exactly the user's rows go, all others stay as they are, and the ones gone are counted. |
| RefreshTokens.AcceptedTokensDescendFromALiveLogin | backend/app/auth/tokens.py:213-316 | Every accepted token descends by rotations from a login of its user after the last sign-out everywhere or password reset. |
| RefreshTokens.ReuseOnlyInGracePeriod | backend/app/auth/tokens.py:257-276 | A used token is accepted again exactly while its row exists, unexpired, at most 60 seconds after first use. |
| RefreshTokens.LoggedOutTokensAreDead | backend/app/auth/tokens.py:284-296 | A logged-out token is never accepted again. |
| RefreshTokens.RefusedTokensAreDead | backend/app/auth/tokens.py:249-269 | A refused token is never accepted later. |
| RefreshTokens.OtherTokensUntouched | backend/app/auth/tokens.py:213-316 | An event leaves all tokens as they are but those it names or, for a wholesale sign-out, those of its user. |
| RefreshTokens.OneTimeUseFails | backend/app/auth/tokens.py:15-19 | A run in which one token is accepted twice. |
| Lockout.User.Login | backend/app/services/user_service.py:138-180 | Logged in exactly with a valid password on a verified, active, unlocked account; a wrong one counts, the tenth locks for 15 minutes; nothing changes otherwise. |
| Lockout.CounterStaysBelowLimit | backend/app/services/user_service.py:160-166 | The stored counter stays in 0..9 in all runs. |
| Lockout.NoWrongPasswordNoLock | backend/app/services/user_service.py:148-180 | Without a wrong password every request from an unlocked state is let in. |
| Lockout.TenWrongPasswordsLock | backend/app/services/user_service.py:160-166 | After ten wrong passwords every request is refused for 15 minutes and not longer. |
| Lockout.LockoutBound | backend/app/services/user_service.py:148-174 | In a segment of length L without a successful login, at most 10 * (floor(L / 15 min) + 1) wrong passwords are checked, less those already counted. |
| Prompt.BuildContextBlock | backend/app/services/prompt.py:88-105 | The included chunks stand at increasing positions, cost at most the budget, and no chunk at another position fits in what is left; they are those of the greedy choice. |
| Prompt.TakenAt | backend/app/services/prompt.py:98-105 | The chunks taken are those at exactly the positions the choice marks, in order, and cost what the choice costs. |
| Prompt.GreedyIsGreatest | backend/app/services/prompt.py:91-105 | The choice is the lexicographically greatest of all choices within the budget. |
| Prompt.GreedyFits | backend/app/services/prompt.py:94-105 | The counted cost of the choice is within the budget. |
| Prompt.NothingSkippedFits | backend/app/services/prompt.py:98-102 | No skipped chunk could be added back. |
| Prompt.BuildHistoryBlock | backend/app/services/prompt.py:119-149 | The longest suffix of messages within the budget, or the last `budget` tokens of a newest message that alone is too big. |
| Prompt.LongestSuffixUnique | backend/app/services/prompt.py:130-149 | There is only one longest suffix, so the history block is determined by messages and budget. |
| Retrieval.RetrievalAgreesWithScan | backend/app/services/retrieval.py:232-279 | The result is the near rows when some eligible chunk is near, and all rows when none is. |
| Retrieval.RelevantAppend | backend/app/services/retrieval.py:277-279 | The distance filter keeps order and repetitions, and a row exactly when its distance is a number within the ceiling. |
| Retrieval.FallbackAgreesWithScan | backend/app/routers/query.py:89-91 | With chunks in the prompt the flag agrees with a full scan exactly when a near chunk exists or no retrieved distance is NaN. |
| Retrieval.FallbackFlag | backend/app/routers/query.py:84-91 | For all inputs, the flag is raised exactly when no chunk is in the prompt, or no eligible chunk is near and no retrieved distance is NaN. |
| Retrieval.ZeroVectorHidesTheFallback | backend/app/services/embedding.py:109-124 | A stored zero vector is retrieved, is not near, and raises no flag. |
| Polling.PollDocumentStatus | frontend/src/lib/documents.api.ts:386-420 | At most 15 fast and 54 slow requests for any latencies and swallowed errors, a bound that is reached; the result is exactly that of the last reply, an abort, or the timeout. |

## Left out

- S3, OpenAI, Postgres, RQ, e-mail, PDF extraction and OCR: only their possible outcomes appear.
- The tokenizer, password hashing, SHA-256 and JWT signing: abstract; fresh tokens are new and the hash is injective.
- The Sentinel rate limiter: its algorithms are not in the repository.
- L2 normalisation and cosine distance as floating point: a function and a real number or NaN; SQL ordering is exact.
- Race conditions inside a transaction or a Redis helper: each is one step; two clients in one helper are not modelled.
- TextDecoding: the decoder follows the WHATWG Encoding standard, the browser's own code is not part of this model.
- StreamClient.StreamAnswer: HTTP errors before the stream opens and exceptions thrown by the callback are not modelled, nor the text of the message table; a number counts as zero by its digits, so underflow is ignored.
- SseServer.SseGenerator: saving the message always succeeds; metrics and logging are absent.
- Documents.Database.ConfirmUpload: the size comparison is exact, not in floating point; file validation is absent.
- Documents.Database.CleanupStaleDocuments: job logs and the best-effort deletion of storage objects are absent.
- Lifecycle.ReadyDocumentsAreComplete: a job of an enqueued document may start at any time, which covers the queue's order, delays and retries without modelling them; confirming and retrying count as enqueueing even where the queue was down.
- CircuitBreaker.GuardedCall: other callers are present through the outcomes they record; the exception objects and metrics are absent.
- ChatView.ReloadKeepsTheAnswer: a reload that fails, the refreshed chat list, and a user who opened another chat meanwhile are not modelled.
- Quota: the daily query quota works like the token quota without a leaderboard and is not repeated.
- Polling.PollDocumentStatus: timers fire no earlier than asked and the clock does not go back.
- The rendered prompt text: budgets count tokens of its parts, separators are not counted.
- React pages, middleware, admin statistics, migrations and report scripts.
