# Verified model of the inference gateway platform

A Dafny 4.11 model of the parts of the platform whose correctness is not obvious from one function:
how requests are admitted, batched and given back their permits, how the RAG pipeline cuts and stores
documents, how token streams are framed and counted, and how requests are limited. Check it with
`dafny verify dfyconfig.toml`.

## How it is organised

Code that changes things step by step appears twice: as a value with one function per stretch that
runs without suspending on the event loop, and as a class with the code's own fields and loops whose
methods are proved to compute those functions. Properties over whole runs are proved on the values.

| files | what they model |
|---|---|
| Admission, AdmissionAnswers, AdmissionClasses | asyncio.Semaphore as in Python 3.12, and the two bounded-queue limiters built on it |
| Barrier, BarrierClasses | the batch barrier: pending list, timer generations, deferred flush tasks, its lock and events |
| Gateway, GatewayTheorems, GatewayTiming, GatewayProgress | the composed protocol as a labelled transition system over any number of requests, its invariants, and what follows from them |
| EventLoop, EventLoopTheorems | the event loop underneath: the ordered list of what is ready, and what that order adds |
| GatewayHandler | the gateway's handler around one upstream exchange |
| ChatCompletion, DjangoService, DjangoAnswers | the Django service: permit ownership, logs and charges of one request, and of any number of requests at once |
| Tally | counting the requests in a kind of phase |
| Text, Chunker, GreedyCuts, ChunkSizes, ChunkerMethods, Ingestion | splitting, chunking, which cuts are made and how long they get, and the document/store state machine |
| Utf8, Sse | decoding, framing and counting a token stream, at the server and in the browser |
| RateLimit, DailyQuota, DailyQuotaBounds, Dedup | counters with a time to live, and deduplication by hash |

A label of the transition system is one stretch of code between suspension points, or an event of the
environment: the clock, a timeout, a cancellation, the outcome of an upstream call. No code suspends
while it holds the barrier's lock; the barrier methods ensure that the lock is free whenever the loop
has control and that asking for it never suspends, which is why a generation test and the flush after
it are one step.

Order: Gateway lets the environment run ready tasks in any order, which only makes what is proved about
all of its runs stronger. EventLoop keeps asyncio's order: what becomes ready goes to the end of one list,
and the list is worked off from the front. Statements that something can happen are made there, with runs
on which the loop keeps up.

Semaphore semantics: a request that finds a live waiter queues even if a permit is free; a release
hands the permit to the oldest waiter; a timeout or cancellation that arrives after the grant gives the
permit back. deploy/gateway/Dockerfile:1 asks for any release of Python 3.12. In the library's earlier
text a task that resumes with its permit, or gives one back, wakes one more waiter; in the later one every
task that leaves the queue wakes as many as there are permits. Both are modelled (`Library`), and
everything is proved for both.

## Where the code differs from what is said about it

The code is modelled as it is, with the exact condition under which it does what is said. "Platform
README" is the repository's own top-level README.md.

- Platform README, lines 198 and 712, call `batch_max_size` a maximum. The size flush is a task that runs
  later, so requests that were ready before it can make a batch larger, unless there are no more permits
  than that (`BatchLimitExactly`); and when there are, a left-over flush task can release an under-full
  batch (`SizeBatchesFullExactly`).
- Platform README, line 709, gives the queue size as the number of requests queued before a 503. Django
  queues one fewer (`DjangoQueuesOneLess`), and a request cancelled in the queue occupies a place for good
  (`CounterIsQueueLengthExactly`).
- A permit is lost for good when a request is cancelled inside the barrier or a streaming response is
  dropped before its first iteration; `LossesCounted` says these are the only ways in the protocol. All can go (`AllPermitsCanBeLost`), and then
  nobody is served again (`NobodyServedThen`).
- Platform README, line 136, speaks of a sliding window. At most rpm requests in sixty seconds holds exactly
  for the minutes of the clock (`SlidingLimitExactly`); in any other sixty seconds the least bound is twice
  that (`MinuteBoundExactly`). Either is for calls that reach the store within a minute: the limit of a window
  holds exactly for delays up to that (`LimitHoldsExactly`).
- The daily limit counts with a check and a record of two calls, each of which reaches the cache some time
  after the clock was read. With at most K requests between the start of the check and the end of the record
  at once, K of them can find no counter and only one of their additions counts; the bound is
  limit - 1 + K + (K - 1), and K if the limit is one, also across midnight. With K = 1 it is the limit itself. The counter's time
  to live is cut to whole seconds, so that it can be gone in the day's last second; each success recorded
  that late can come on top, up to twice the bound (`SuccessesExactly`).
- The concurrency limit does not bound that K: streams return their permit before they are charged, so any
  number of them can have passed the check and not be counted yet (`OverlapBoundedExactly`).
- Platform README, line 380, gives `RAG_CHUNK_SIZE` as characters per chunk; chunks can be longer
  (`LongestChunkExactly`, `SizePlusOneExactly`).
- A failed deletion of old chunks is swallowed, so a READY document can have stale ones
  (`ReadyStoreIsExact`). The one caller in the repository (apps/rag/views.py:132) ingests a new document
  once; the lemmas hold of any earlier state of the row and the store.
- A Django stream that the client closes early, or that ends in an exception the service does not
  classify, is charged as a success (`StreamChargedExactly`).

## Model

| member | source | states |
|---|---|---|
| Admission.EveryTraceConserves | deploy/gateway/gateway/concurrency.py:23-62 | over every trace of arrivals, releases, timeouts, cancellations and resumptions: permits free, granted and taken up add up to the configured number plus releases; counter = queue length + requests cancelled in the queue, never above the queue size; grants go out in arrival order and no free permit is forgotten while somebody waits |
| Admission.StepKeeps | deploy/gateway/gateway/concurrency.py:23-62 | what each single event does to the permits and that it keeps the limiter invariant |
| Admission.LeaveKeeps | deploy/gateway/gateway/concurrency.py:39-48 | a queued task that runs again leaves the queue, gives an unused grant back, and passes free permits on |
| Admission.AnswersAreJustified | deploy/gateway/gateway/concurrency.py:27-57 | refused on arrival only at capacity with no permit to be had; gives up only after its own timeout; raises only after its own cancellation; served at once only when it overtakes no live waiter |
| Admission.CounterIsQueueLengthExactly | deploy/gateway/gateway/concurrency.py:27-51 | the counter is the number of queued requests plus the requests cancelled in the queue so far, so it equals the former if and only if there was no such cancellation |
| Admission.CancelledWaiterOccupiesQueue | deploy/gateway/gateway/concurrency.py:37-47 | one cancellation in a queue of one makes a later arrival be rejected although nobody waits |
| Admission.SameDecisionsExactly | apps/inference/services/concurrency.py:44-78 | two limiters answer alike on every trace if and only if they have the same effective capacity |
| Admission.DjangoSimulatesGateway | apps/inference/services/concurrency.py:44-55 | Django with queue size d decides like the gateway with queue size g on every trace exactly when d = g + 1, or neither ever queues |
| Admission.DjangoQueuesOneLess | apps/inference/services/concurrency.py:44-55 | with one setting for both, the longest queue is the setting at the gateway and one less at Django, and both are attained |
| AdmissionAnswers.ArrivalExactly | deploy/gateway/gateway/concurrency.py:27-57 | on every trace, an arrival is served at once exactly if a permit is free and no live waiter is ahead, and otherwise queued exactly if there is room |
| AdmissionAnswers.WaitEndsExactly | deploy/gateway/gateway/concurrency.py:37-53 | on every trace, a queued request that runs again raises exactly if its task was cancelled, gives up exactly if only its timeout expired, and goes on exactly if neither happened and it was granted a permit |
| AdmissionAnswers.ReleaseServesOldest | deploy/gateway/gateway/concurrency.py:60-62 | a release serves the longest waiting request |
| AdmissionClasses.Semaphore.FinishAcquire | deploy/gateway/gateway/concurrency.py:39 | the semaphore object computes exactly the abstract resumption, in the earlier and in the later text of the library |
| AdmissionClasses.GatewayLimiter.AcquireSlot | deploy/gateway/gateway/concurrency.py:23-34 | the gateway code decides and changes its state as the abstract limiter with capacity queue size |
| AdmissionClasses.GatewayLimiter.FinishSlot | deploy/gateway/gateway/concurrency.py:37-53 | acquired, given up or raised, with the counter left alone on cancellation |
| AdmissionClasses.GatewayLimiter.ReleaseSlot | deploy/gateway/gateway/concurrency.py:60-62 | a release frees one permit or hands it to the oldest waiter |
| AdmissionClasses.DjangoLimiter.Acquire | apps/inference/services/concurrency.py:41-55 | the Django code decides as the abstract limiter with capacity queue size minus one |
| AdmissionClasses.DjangoLimiter.FinishAcquire | apps/inference/services/concurrency.py:57-75 | the Django code after the wait, on each of its three ends |
| Barrier.FireTimerKeeps | deploy/gateway/gateway/batcher.py:94-99 | a timer of an older generation releases nobody; the current one releases everybody, not before the first waiter has waited a window |
| Barrier.FlushKeeps | deploy/gateway/gateway/batcher.py:101-116 | a flush moves the whole pending list into one batch and keeps batches plus pending equal to the arrivals |
| BarrierClasses.BatchBarrier.Wait | deploy/gateway/gateway/batcher.py:70-91 | the code enters as the abstract barrier does and never suspends on the lock |
| BarrierClasses.BatchBarrier.TimerSleeps | deploy/gateway/gateway/batcher.py:94-95 | a timer task sets its deadline when it first runs, one window from then |
| BarrierClasses.BatchBarrier.TimerWakes | deploy/gateway/gateway/batcher.py:94-99 | the code tests the generation and flushes as one atomic step; exactly the pending events get set |
| BarrierClasses.BatchBarrier.FlushTask | deploy/gateway/gateway/batcher.py:101-116 | the size-triggered task flushes whatever is pending when it runs |
| BarrierClasses.BatchFigures.OnBatchFlush | deploy/gateway/gateway/main.py:92-106 | the cumulative figures; the efficiency gauge is their exact ratio, in [0, 1), and clamping never applies |
| Gateway.EveryRunKeepsInv | deploy/gateway/gateway/main.py:375-623 | every reachable state of the composed protocol satisfies all invariants together |
| Gateway.PendingFits | deploy/gateway/gateway/main.py:375-384 | pending entries never outnumber the permits in use or lost |
| GatewayTheorems.PermitsAreConserved | deploy/gateway/gateway/main.py:375-384 | over every run free + granted + held + losses is the configured number, and every finished request released exactly once |
| GatewayTheorems.LossesCounted | deploy/gateway/gateway/main.py:384-521 | permits lost are exactly the cancellations inside the barrier plus the streams dropped before their first iteration |
| GatewayTheorems.WaitingMeansBusy | deploy/gateway/gateway/concurrency.py:26-57 | a request waits without a grant being on its way only when every permit is in use or lost |
| GatewayTheorems.QueueLaw | deploy/gateway/gateway/concurrency.py:27-51 | the queue law in every reachable state of the composed system |
| GatewayTheorems.BarrierConserves | deploy/gateway/gateway/batcher.py:79-116 | batches in order followed by the pending list are the arrivals in order; 0 <= dispatches <= requests dispatched; a request past the barrier was in exactly one batch |
| GatewayTheorems.NobodyIsStranded | deploy/gateway/gateway/batcher.py:79-99 | no lost wake-up: in every reachable state with waiters, the current timer is alive and the clock and that timer alone release everybody |
| GatewayTheorems.TimerAloneDispatches | deploy/gateway/gateway/batcher.py:82-99 | with fewer permits than the size limit, every dispatch is by the batch's own timer, after at least the window, with at most as many members as permits |
| GatewayTiming.WaitIsBounded | deploy/gateway/gateway/batcher.py:75-99 | when runnable tasks run before the clock moves, nobody waits in the barrier longer than the window |
| GatewayTiming.DispatchedOnTheDot | deploy/gateway/gateway/batcher.py:82-99 | with the size trigger out of reach, every batch then leaves exactly one window after its first member came |
| GatewayProgress.TimeoutEndsWait | deploy/gateway/gateway/concurrency.py:37-47 | from every reachable state, a queued request whose timeout expires leaves the queue, its place becomes free, and it is not served |
| GatewayProgress.CancelEndsWait | deploy/gateway/gateway/concurrency.py:37-47 | one whose task is cancelled leaves the queue, and its place stays taken |
| GatewayProgress.GrantEndsWait | deploy/gateway/gateway/main.py:375-384 | one that was granted a permit, and nothing else, goes straight into the barrier |
| GatewayProgress.ServedAtOnceExactly | deploy/gateway/gateway/main.py:375-384 | a new request goes straight into the barrier exactly if a permit is free and no live waiter is ahead |
| GatewayProgress.PlainCanEnd | deploy/gateway/gateway/main.py:526-623 | a request released from the barrier can come to every end of a plain exchange, and then has given back its permit, once |
| GatewayProgress.StreamCanEnd | deploy/gateway/gateway/main.py:388-514 | the same for a streamed exchange |
| GatewayProgress.ResponseCanFail | deploy/gateway/gateway/main.py:516-524 | one whose streaming response cannot be built is finished at once and gives back its permit, once |
| GatewayProgress.CancelLoses | deploy/gateway/gateway/main.py:384 | a request in the barrier can be cancelled, and its permit is then lost |
| GatewayProgress.DroppedStreamLoses | deploy/gateway/gateway/main.py:516-524 | a stream can be dropped before its first iteration, and its permit is then lost |
| GatewayProgress.OnlyStreamsAreDropped | deploy/gateway/gateway/main.py:388-392 | only a streamed request is lost that way |
| GatewayProgress.AllPermitsCanBeLost | deploy/gateway/gateway/main.py:375-384 | in every configuration there is a run that loses all permits |
| GatewayProgress.NobodyServedThen | deploy/gateway/gateway/concurrency.py:26-57 | after which no run ever serves anybody again |
| EventLoop.LoopRefinesGateway | deploy/gateway/gateway/batcher.py:70-116 | every run of the event loop with its ordered ready list is a run of the protocol, so all theorems above hold of it |
| EventLoop.NothingIsForgotten | deploy/gateway/gateway/batcher.py:86-98 | in every state the loop can reach, every task that can run (timers, flush tasks, released waiters, granted or cancelled queued requests) has its place on the ready list |
| EventLoop.FirstComeFirstServed | deploy/gateway/gateway/batcher.py:86-91 | jobs are worked off in the order in which they became ready: those taken, followed by those on the list, are all ever put on it, in order |
| EventLoop.OutsideHappens | deploy/gateway/gateway/main.py:375-623 | a loop with nothing to do lets everything from outside happen that can happen |
| EventLoop.WokenCanGoOn | deploy/gateway/gateway/main.py:384-524 | a task the barrier woke, once at the head of the ready list, can go on, be cancelled or fail to build its response, with the protocol's effect |
| EventLoop.StaleExactly | deploy/gateway/gateway/batcher.py:91-99 | a job is skipped exactly when there is nothing it can do, so the loop never gets stuck |
| EventLoopTheorems.LoopWaitIsBounded | deploy/gateway/gateway/batcher.py:75-99 | on a loop that lets time pass only when nothing is ready and no timer is overdue, nobody waits longer than the window |
| EventLoopTheorems.FlushesFindAll | deploy/gateway/gateway/batcher.py:88-91 | with no more permits than the size limit: while a flush task is ready no permit is to be had, and the list is full or empty |
| EventLoopTheorems.SizeTriggerExactly | deploy/gateway/gateway/config.py:24-29 | the size trigger is unreachable if and only if there are fewer permits than the limit (or none) |
| EventLoopTheorems.BatchLimitExactly | deploy/gateway/gateway/batcher.py:88-89 | no batch exceeds the size limit on any run if and only if no more permits than that exist (or none) |
| EventLoopTheorems.SizeBatchesFullExactly | deploy/gateway/gateway/batcher.py:88-104 | batches released by the size test are full on every run if and only if there are no more permits than the limit, or the limit is trivial |
| EventLoopTheorems.LeftoverFlush | deploy/gateway/gateway/batcher.py:88-104 | with a spare permit, a run on which the loop keeps up and a left-over flush task releases a single young request |
| GatewayHandler.ChatHandler.RequestSlot | deploy/gateway/gateway/main.py:375-381 | a refusal moves the overload counter by two |
| GatewayHandler.ChatHandler.ResumeSlot | deploy/gateway/gateway/main.py:375-381 | a queue timeout moves the overload counter by two |
| GatewayHandler.ChatHandler.Post | deploy/gateway/gateway/main.py:526-623 | wherever an exception surfaces in a plain exchange, the permit is released exactly once; the gauge is off by one exactly if it surfaces between its two moves; a log names an error exactly when its status is at least 400 |
| GatewayHandler.ChatHandler.Stream | deploy/gateway/gateway/main.py:390-514 | the same for an iterated stream, whose accounting is protected separately; an exception after an error status was noted is logged with that status |
| ChatCompletion.ChatCompletionService.Handle | apps/inference/services/chat_completion.py:215-285 | the service, from the limiter's answer on, does exactly the acts of its script, in order |
| ChatCompletion.ChatCompletionService.Nonstreaming | apps/inference/services/chat_completion.py:305-406 | a plain exchange records everything before it releases, on each of its ends |
| ChatCompletion.ChatCompletionService.StreamSse | apps/inference/services/chat_completion.py:421-484 | an iterated stream releases first and then records, on each of its ends |
| ChatCompletion.ActsCounted | apps/inference/services/chat_completion.py:215-285 | for every way an exchange can end and every failure while recording: exactly how often the gauge moves, the permit is released, a log is written, and quota and key usage are charged |
| ChatCompletion.PlainEnds | apps/inference/services/chat_completion.py:305-406 | the log of a plain exchange for each of its ends, with status and kind, and that it is charged exactly if the body came |
| ChatCompletion.StreamEnds | apps/inference/services/chat_completion.py:429-484 | the log of a stream for each of its ends, and that it is charged exactly if the log names no error |
| ChatCompletion.OtherEnds | apps/inference/services/chat_completion.py:216-285 | what is done, exactly, for a request that is turned away, and for one whose backend or response cannot be built or whose stream is never iterated |
| ChatCompletion.FailuresLose | apps/inference/services/chat_completion.py:383-394 | what a failure while recording loses, and that it loses nothing else |
| ChatCompletion.ReleaseOrder | apps/inference/services/chat_completion.py:404-461 | a plain exchange gives its permit back last, a stream before anything is recorded |
| ChatCompletion.RecordOrder | apps/inference/services/chat_completion.py:512-523 | log, quota and key usage are recorded in this order |
| ChatCompletion.StreamChargedExactly | apps/inference/services/chat_completion.py:429-484 | a stream counts as a success exactly when it was exhausted, closed early, or ended by an unclassified exception |
| DjangoService.EveryRunKeepsInv | apps/inference/services/chat_completion.py:215-484 | over any number of interleaved requests: limiter, queue, permits, and what was done for each request stay consistent |
| DjangoService.PermitsAreConserved | apps/inference/services/chat_completion.py:215-285 | free, granted, held and forfeited permits are the configured number; forfeited are exactly those of responses not built and streams never iterated |
| DjangoService.InterleavingIsInvisible | apps/inference/services/chat_completion.py:305-484 | what has been done for a request that has ended, in order, is what the service does for its script alone, however requests interleave |
| DjangoService.ExactlyOnce | apps/inference/services/chat_completion.py:404-484 | in every run, a request that has ended had its permit released, its log written, and its quota and key usage charged exactly as often as its script says, which is once or never |
| DjangoService.OverlapBoundedExactly | apps/inference/services/chat_completion.py:461-484 | the number of requests between the quota's check and its charge is bounded if and only if there are no permits: a stream returns its permit before it is charged |
| DjangoService.PlainOverlapBounded | apps/inference/services/chat_completion.py:394-406 | plain exchanges between upstream call and charge never outnumber the permits |
| DjangoAnswers.TurnedAwayIsLogged | apps/inference/services/chat_completion.py:216-230 | in every run, a request that is refused or gives up is logged once as overloaded unless writing fails, and nothing else is done for it |
| DjangoAnswers.ServedExactly | apps/inference/services/chat_completion.py:214-231 | a request is in the service after the answer exactly if it is neither queued nor cancelled in the queue |
| DjangoAnswers.QueuedThenAnswered | apps/inference/services/concurrency.py:57-75 | from every reachable state, a queued request whose timeout expires gives up when it runs, and one whose task is cancelled raises |
| DjangoAnswers.EveryScriptHappens | apps/inference/services/chat_completion.py:244-484 | whoever gets a permit can come to every end, with every failure on the way, whatever other requests do |
| Text.SplitFrom | apps/rag/services/chunker.py:31-38 | re.split at sentence gaps or blank lines loses no non-whitespace character |
| Text.SplitExactly | apps/rag/services/chunker.py:31-38 | the parts are what is left when the longest separators are cut out from the left: no separator begins in a part, and each gap is the longest one at its place, for both regular expressions |
| Text.PiecesKeepInk | apps/rag/services/chunker.py:31-38 | the stripped, non-empty pieces keep all non-whitespace characters |
| Chunker.ContentPreserved | apps/rag/services/chunker.py:41-92 | for every text, size and overlap: chunks without their overlap prefixes, concatenated, have exactly the non-whitespace characters of the page in order; no chunk is blank |
| Chunker.ChunksExactlyWhenInk | apps/rag/services/chunker.py:88-92 | a page has a chunk if and only if it has a non-whitespace character |
| Chunker.OverlapIsLongestFit | apps/rag/services/chunker.py:95-105 | the overlap is the longest suffix of whole sentences that fits |
| Chunker.OverlapsComeFromPreviousChunk | apps/rag/services/chunker.py:72-73 | every overlap is empty or taken from the chunk before |
| ChunkSizes.ChunkSizeBounded | apps/rag/services/chunker.py:61-89 | no chunk exceeds max(size + 1, overlap + 2 + longest paragraph), without the overlap and its separator if there is none |
| ChunkSizes.LongestChunkExactly | apps/rag/services/chunker.py:61-89 | that bound cannot be lowered: x bounds all chunks of all texts with such paragraphs if and only if it is at least that, for every size and overlap once paragraphs can have two characters (but for one corner: size two, no overlap, no longer paragraphs) |
| ChunkSizes.SizePlusOneExactly | apps/rag/services/chunker.py:61-74 | all chunks stay within size + 1 if and only if the longest paragraph is at most size - overlap - 1, or, without an overlap, size + 1 |
| ChunkSizes.SizeIsExceededByOne | apps/rag/services/chunker.py:61-66 | for every size from three on, paragraphs of one or two characters give a chunk of size + 1 |
| ChunkSizes.OverlapReached | apps/rag/services/chunker.py:68-73 | for every positive overlap, a text whose chunk is that overlap, a separator and the longest paragraph; the overlap is made of one or several paragraphs or sentences of earlier chunks |
| ChunkSizes.SpreadParagraphs | apps/rag/services/chunker.py:36-38 | words set apart by blank lines come back as the paragraphs |
| GreedyCuts.CutsAreGreedy | apps/rag/services/chunker.py:57-89 | the chunks are exactly the greedy ones: sentences of a first paragraph that is too long, and then paragraphs, share a chunk exactly as long as they fit; each chunk but the first begins with the overlap of the one before |
| GreedyCuts.SentencesGreedy | apps/rag/services/chunker.py:75-86 | the sentences of such a paragraph are grouped greedily, joined by single spaces |
| GreedyCuts.SeveralFit | apps/rag/services/chunker.py:61-81 | a chunk of several sentences is at most the size, and one of several paragraphs at most one more |
| ChunkerMethods.ComputeOverlap | apps/rag/services/chunker.py:95-105 | the loop computes the abstract overlap |
| ChunkerMethods.TakeParagraph | apps/rag/services/chunker.py:61-86 | one paragraph, on each of its branches |
| ChunkerMethods.ChunkDocument | apps/rag/services/chunker.py:41-92 | the loops compute the abstract cuts |
| ChunkerMethods.ChunkPages | apps/rag/services/chunker.py:108-130 | chunks of all pages in order, numbered through with distinct identifiers |
| ChunkerMethods.OnePageMore | apps/rag/services/chunker.py:114-123 | the pieces of a document are those of its pages, one page after the other |
| ChunkerMethods.ChunksExactlyWhenNotBlank | apps/rag/services/document_processor.py:48-50 | the blank-text check passes if and only if there will be a chunk |
| Ingestion.DocumentProcessor.SyncProcess | apps/rag/services/document_processor.py:42-87 | the row and the store end as the abstract ingestion says, for every combination of failures |
| Ingestion.DocumentProcessor.AddBatches | apps/rag/services/vector_store.py:74-96 | the batch loop stores whole batches up to the first failure and reports how many chunks |
| Ingestion.StatusExactly | apps/rag/services/document_processor.py:36-87 | READY exactly if nothing went wrong, in terms of what happened alone; otherwise FAILED with an error if that could be saved, else PROCESSING; also for documents that were not found or could not be marked |
| Ingestion.ReadyMeansStored | apps/rag/services/document_processor.py:55-70 | READY implies at least one chunk, all of them stored, and the recorded count is theirs |
| Ingestion.ReadyTexts | apps/rag/services/vector_store.py:77-90 | under each of its numbers a READY document has the text of that chunk, unless a stale one was left there |
| Ingestion.ReadyStoreIsExact | apps/rag/services/vector_store.py:140-153 | the store of a READY document is exactly 0..count-1 if and only if deletion worked or no old chunk lies beyond |
| Ingestion.FailureLeavesWholeBatches | apps/rag/services/vector_store.py:77-93 | FAILED leaves the store alone, or with the chunks of exactly the leading batches the store took, each with its text |
| Ingestion.OthersUntouched | apps/rag/services/vector_store.py:140-153 | chunks of other documents never change |
| Sse.FrameSplits | apps/inference/services/chat_completion.py:599-603 | framing a text in two parts with a carried buffer is framing it whole |
| Sse.FrameExactly | apps/inference/services/chat_completion.py:601-602 | events and rest, joined by blank lines, are the text; no separator begins in an event or in the rest |
| Sse.FramingIgnoresCuts | apps/inference/services/chat_completion.py:599-603 | events and buffer do not depend on how the text was cut |
| Sse.SplitAllIsFrame | static/dashboard/chat_stream.js:65-66 | split-all-and-pop yields the same events and rest as splitting one at a time |
| Sse.SseTokenCounter.Feed | apps/inference/services/chat_completion.py:599-603 | one chunk: events appended, buffer kept, count of the events consumed |
| Sse.SseTokenCounter.ConsumeEvent | apps/inference/services/chat_completion.py:605-629 | the loop over an event's data lines counts its payloads |
| Sse.LinesExactly | apps/inference/services/chat_completion.py:606 | the lines of an event contain no line end and, joined, are the event |
| Sse.DataLineExactly | apps/inference/services/chat_completion.py:607-615 | a line counts exactly if it begins with data: and is not the end mark, and is then parsed without prefix and surrounding whitespace |
| Sse.DataEventCounts | apps/inference/services/chat_completion.py:599-629 | one data event moves the count as its payload says |
| Sse.SilentEvent | apps/inference/services/chat_completion.py:606-611 | an event without a data line, or only with the end mark, leaves the count alone |
| Sse.PayloadExactly | apps/inference/services/chat_completion.py:616-629 | a positive report lifts the count to four characters a token if it is below; content then adds its length |
| Sse.SseTokenCounter.CompletionTokenEstimate | apps/inference/services/chat_completion.py:631-632 | the estimate is never below a reported usage nor below a quarter of the content streamed |
| Sse.FeedPieces | apps/inference/services/chat_completion.py:599-603 | bytes cut on character boundaries give the events, buffer and count of the whole |
| Sse.ReadPieces | static/dashboard/chat_stream.js:60-76 | the browser reading any pieces hands over the complete events of the text without a leading byte order mark, which without one are the server's, plus an unfinished last one |
| Sse.TrimAgainstStrip | static/dashboard/chat_stream.js:73 | the two notions of surrounding whitespace differ by the byte order mark, the information separators and the next-line character |
| Sse.SameEventsExactly | static/dashboard/chat_stream.js:57-66 | server and browser find the same complete events if and only if the stream does not begin with a byte order mark, which only the browser drops, or has no complete event |
| Sse.StreamReader.Read | static/dashboard/chat_stream.js:63-71 | one read of the browser |
| Sse.EstimateSandwich | apps/inference/services/chat_completion.py:616-632 | the count never decreases and lies between content, four times each report, and content plus four times the largest; the estimate is never below any report |
| Utf8.RoundTrip | apps/inference/services/chat_completion.py:600 | decoding undoes encoding |
| Utf8.FrontExactly | apps/inference/services/chat_completion.py:600 | a character is read off the front exactly if the bytes begin with its encoding |
| Utf8.DecodeExactly | apps/inference/services/chat_completion.py:600 | decoding takes encoded characters one after the other and drops a byte at which none begins |
| Utf8.EncodeExamples | apps/inference/services/chat_completion.py:600 | the examples of RFC 3629 |
| Utf8.CutExactly | apps/inference/services/chat_completion.py:600 | decoding two parts separately gives the text back if and only if the cut is on a character boundary |
| RateLimit.CountersAreHits | deploy/gateway/gateway/limits.py:16-20 | a counter holds the hits of its window and never expires before the last of them, whatever the order in which stamped calls reach the store |
| RateLimit.AllowedExactly | deploy/gateway/gateway/limits.py:12-24 | per window exactly min(rpm, hits) requests plus one for every failed increment are allowed |
| RateLimit.AnyMinuteBounded | deploy/gateway/gateway/limits.py:12-24 | in any sixty seconds at most twice the limit plus the failures |
| RateLimit.LimitHoldsExactly | deploy/gateway/gateway/limits.py:16-20 | the limit of a window holds on every trace if and only if no call takes more than sixty seconds from its stamp to the store |
| RateLimit.MinuteBoundExactly | deploy/gateway/gateway/limits.py:12-24 | for every limit and every start: x bounds what is admitted in those sixty seconds beyond the failures, on all traces, if and only if it is at least rpm for a minute of the clock and at least twice rpm otherwise |
| RateLimit.SlidingLimitExactly | deploy/gateway/gateway/limits.py:16 | the limit of rpm holds for the sixty seconds from a on if and only if they are a minute of the clock |
| RateLimit.TwiceTheLimitIsReached | deploy/gateway/gateway/limits.py:16 | in any sixty seconds that are not a minute of the clock, twice as many requests can be admitted |
| RateLimit.GatewayRateLimiter.ConsumeRateLimit | deploy/gateway/gateway/limits.py:12-24 | the gateway code computes the abstract decision and fails open |
| RateLimit.DjangoRateLimiter.ConsumeRateLimit | apps/api_keys/services/limits.py:23-39 | on calls that do not overlap the Django code computes the same decision and the same counter |
| DailyQuota.EveryRunHolds | apps/api_keys/services/limits.py:77-114 | on every run of overlapping checks and records, each call reaching the cache at any time after its clock reading: counter, successes it missed, requests that may still be recorded and the successes of each day stay in balance |
| DailyQuota.CheckExactly | apps/api_keys/services/limits.py:77-81 | a check is passed exactly if the limit is above zero and the counter it asks for is not live or below it; who is refused is gone |
| DailyQuota.AbandoningMakesRoom | apps/api_keys/services/limits.py:62-114 | a request that is given up makes room for another and leaves no trace |
| DailyQuota.SuccessesBounded | apps/api_keys/services/limits.py:62-114 | a day's successes, including those whose check or record straddles midnight, exceed the bound by at most one for each recorded in or after its last second, and by at most the bound |
| DailyQuotaBounds.SuccessesExactly | apps/api_keys/services/limits.py:46-114 | for every number m of such late records: x bounds the successes on all runs with at most m of them if and only if it is at least bound + min(m, bound) |
| DailyQuotaBounds.BoundExceeded | apps/api_keys/services/limits.py:46-49 | for every m up to the bound, a run with m late records that exceeds the bound by m |
| DailyQuota.TtlReaches | apps/api_keys/services/limits.py:46-49 | the time to live ends less than a second before midnight, or later, and not before it unless it was cut to whole seconds |
| DailyQuota.UserQuota.CheckUserDailyQuota | apps/api_keys/services/limits.py:62-91 | the check of both limits: it refuses exactly when one of them speaks against the request, and names it |
| DailyQuota.UserQuota.IncrementRequests | apps/api_keys/services/limits.py:105-112 | the first call of a record: increment, or raise if there is no live counter |
| DailyQuota.UserQuota.AddFirstRequest | apps/api_keys/services/limits.py:113-114 | the second: add with the time to live of the first, without effect if a counter has appeared |
| Dedup.SeenExactly | apps/agents/services/dedup/service.py:25-39 | the hashes seen are those of all URLs so far and of the titles of kept items |
| Dedup.DroppedExactly | apps/agents/services/dedup/service.py:24-39 | when exactly an item is dropped, with an earlier item as witness or its own URL and title colliding |
| Dedup.KeptAreDisjoint | apps/agents/services/dedup/service.py:24-39 | no two kept items share a hash, not even URL against title |
| Dedup.KeptInOrder | apps/agents/services/pipelines/research.py:82-86 | the survivors are the kept items, in order, each once |
| Dedup.SemanticDeduplicator.IsDuplicate | apps/agents/services/dedup/service.py:24-39 | the code examines one item as specified |
| Dedup.SemanticDeduplicator.Deduplicate | apps/agents/services/pipelines/research.py:82-93 | the pipeline stage: survivors of the list alone after the reset; before = after + duplicates filtered |

## Left out

- HTTP, PostgreSQL, Redis, ChromaDB, PyMuPDF and the embedding model: each call is an outcome chosen by the environment or an atomic change of a map. The embedding call returns one vector per text.
- JSON: a data line's payload is an unspecified function of its text to a reported token count and content lengths.
- Backend routing, parameter clamping, validation, authentication, redaction, logging text and all metrics not named above.
- The QUEUE_DEPTH gauge of the gateway, which a fast-path arrival sets to zero; the counter it shows is modelled.
- Queue timeouts of zero or less, and the one clock tick by which an event loop may fire a timer early.
- Token counting per network chunk in the gateway's stream (deploy/gateway/gateway/main.py:423-430), which depends on where the network cuts.
- The recording of the daily token quota, which reads the counter and sets it later; its check is modelled.
- Whether the bound on chunk sizes is reached when all paragraphs are single characters; `ChunkSizeBounded` holds.
- Partial effects inside the two hooks after a success: recording the quota, or the key's usage, happens or fails as a whole.
- A Redis increment that takes effect although its reply is lost.
- Concurrent first increments of Django's rate counter.
- Ingest and delete of one document at the same time.
- Semantic duplicates by embedding similarity, and relevance filtering: floating-point scores.
- Chunk identifiers are a document id and a number; their rendering as one string is not modelled.
