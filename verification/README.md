# Crawl results, from the browser to the helper

A Chrome extension crawls reviews and moves them to a local helper over a WebSocket. Around that the
repository keeps a job queue, a command transport with an exclusive owner, two binary codecs, and a
crawler with a durable task queue. This project models the protocol logic of these parts in Dafny and
proves what they are for: that a crawl survives crashes, that an upload arrives exactly, that no job is
lost, that the owner cannot be displaced by accident, that every interleaving keeps its books.

`dafny verify dfyconfig.toml` checks the whole project.

How it is laid out, one module to a component:

- `Reviews`, `Separators`, `Fingerprints`, `Checkpoint`, `Crawl`: the identity of a review on both sides,
  the helper's checkpoint as an index over rows, and the three-scope paging loop run against it with
  failures at any step and messages that arrive late.
- `Chunking`, `IngestRpc`, `Upload`: cutting a payload, the helper's deduplicating request table, and the
  two joined by a channel that loses, repeats, delays and reorders.
- `IdempotencyCache`, `Transport`, `Commands`: the answer cache, the command transport and the gateway's
  lease as interleaved atomic steps, and the extension's dispatcher at the other end.
- `Jobs`, `Executor`, `Delivery`: the helper's jobs with replay on reconnect, the extension's single
  executor, and the two joined.
- `Bytes`, `WsFrame`, `BcpFrame`: WebSocket frames (sections 5.2 and 5.3 of RFC 6455) and the control
  plane's length-prefixed frames.
- `ZipSplit`, `Sink`, `Frontier`, `Compliance`: splitting archives, versioned writes, the task queue with
  its retry matrix (the crawler's storage class is split between these two by its tables), and the circuit
  breaker with the rate limiter.

What the source changes in place is a class here, or a loop; its methods are proved against functions on
values, and what is promised is proved about those functions: for one step, then for every run. Clocks,
jitter and what the network does are parameters or are chosen freely at each step.

Where the code does not do what one would expect, the code is modelled, and a lemma names the input: a
separator inside a review field, a short page in the middle of a bucket, an old checkpoint loaded beside a
helper that knows the total, a request id redelivered after 600 s, an id set twice in the answer cache, an
envelope looked up just before a reset, a token revoked with a command pending, late progress after a
failure, a slow handler after a resumption, a length field of zero, a null frame, a
version filed under another id, a dead task row, more than 1000 known jobs, and a job resumed while it
runs. Where it can be said exactly, a second lemma says when the expectation holds and when not.

Three comments in the source do not say what it does, and the code is followed: a half-open circuit
allows any number of requests, not one (`crawler/compliance.py:58`, `Compliance.HalfOpenLetsAllPass`); a
replay on connect repeats jobs in flight too, not only unclaimed ones (`launch.py:892`, `Jobs.Replay`);
and only the first delivery of a job runs as long as nothing is forgotten and no delivery asks for a retry
(`browser-extension/background.js:4704`, `Executor.OneAtATimeAndOnce`, `Executor.ForgetsExactlyWhen`).

## Model

| member | source | states |
|---|---|---|
| Reviews.MergeKeepsKey | launch.py:322-350 | Merging a repeated row into the stored one, which rewrites four of the fields its identity is computed from, never moves it to another identity |
| Fingerprints.MovedSeparator | browser-extension/background.js:686-694 | For every review without id and each of its keyed fields: a separator U+001F in the field with more than white space behind it gives another review of the same fingerprint and another key, the one where what is behind it belongs to the next field. In the star rating, the text and the variant that leaves user and time as they were, so the other review can be sent too; in the user it can where what is behind it is a time |
| Fingerprints.FixesKeyExactlyWhen | browser-extension/background.js:681-695 | When a fingerprint says which key its review has in the helper, whatever other review that the extension can send shares it, a time being whatever texts without separator it formats as one: with an id, exactly if its fingerprint does not read like one without; without, exactly if the fingerprint does not read like one with an id, the time can be read only where it is, and behind the time either no field contains a separator or there is only white space from the first separator to the last but one |
| Fingerprints.FixedBySight | browser-extension/background.js:681-695 | So a review that the extension withholds as a duplicate of such a one is one the helper has |
| Reviews.MergeReviewKeepsKey | browser-extension/background.js:697-721 | Merging a repeated review into the one collected, whatever the two contain, never moves it to another key of the helper |
| Fingerprints.MergeKeepsFingerprintExactlyWhen | browser-extension/background.js:697-721 | When that merge keeps the fingerprint of the review it merges into, whatever review with that fingerprint comes: exactly if the review has an id, or its fingerprint does not read like one with an id, its time can be read only where it is, and no field behind it contains a separator |
| Checkpoint.AbsorbKeepsIndex | launch.py:317-353 | After every row the index map holds exactly the non-blank keys, each pointing at the one row whose recomputed key it is |
| Checkpoint.TableRepresentsLog | launch.py:317-353 | After any rows the checkpoint is one row per key in first-seen order plus the blank-keyed rows, each listed field the earliest longest (or the earliest) non-empty value |
| Checkpoint.RepresentationIsUnique | launch.py:317-353 | That description leaves nothing open: two tables that fit one log are equal, whatever way they came about |
| Checkpoint.AbsorbAllSplit | launch.py:317-353 | How the rows were cut into batches makes no difference |
| Checkpoint.RedeliveredRow | launch.py:334-350 | A keyed row received before changes nothing when it comes again |
| Checkpoint.RedeliveredBatch | launch.py:317-353 | Redelivering keyed rows of earlier batches, in any order and number, changes nothing |
| Checkpoint.RemergeIsTransparent | launch.py:1365-1405 | Finalising merges the stored rows and the tail from nothing, with every key recomputed, and gets what merging the tail into the checkpoint would give |
| Checkpoint.KeysOfTable | launch.py:317-353 | A batch adds exactly its own keys to the checkpoint's |
| Checkpoint.IngestCheckpoint.constructor | launch.py:302-316 | A new checkpoint is empty and stands at the start |
| Checkpoint.IngestCheckpoint.Receive | launch.py:317-353 | The row loop, in place: the checkpoint stands for all rows received so far, and its keys grow by the batch's |
| Checkpoint.IngestCheckpoint.Save | launch.py:298-392 | One checkpoint message: rows merged as described, and every field of the position, the item and shop ids and the rating summary moved by exactly what is given, under either name of the offset |
| Checkpoint.IngestCheckpoint.Finalize | launch.py:1365-1405 | The final rows are the merge of everything received and the tail; with an empty tail they are the checkpoint itself; without a checkpoint they are the tail as it is |
| Crawl.TypeIndex | browser-extension/background.js:1288 | The place of a rating type among the six, and the first for an unknown one |
| Crawl.TurnDecreases | browser-extension/background.js:1290-1582 | Every page leaves fewer scopes, or fewer ratings of the scope, or fewer items of the bucket |
| Crawl.TraceRecord | browser-extension/background.js:1498-1582 | Resuming from the checkpoint of a page fetches what the crawl had still to fetch, if the page is full or is the last of its bucket |
| Crawl.ResumesExactlyWhenMet | browser-extension/background.js:1566-1577 | At any point of a crawl where the scope has no further rating to go to: resuming from the checkpoint of the page fetches what the crawl would, exactly if the page is full or is the last of its bucket |
| Crawl.ResumesExactlyWhen | browser-extension/background.js:1566-1577 | All along a crawl, over the pages it comes to and no others: it can be resumed after every page if its short pages are the last of their buckets, and, where its short pages leave their scopes no further rating, only if they are |
| Crawl.TidySite | browser-extension/background.js:1566-1577 | Every crawl of a site meets that condition if no short page of the site is followed by another |
| Crawl.ShortPageInMidBucket | browser-extension/background.js:1566-1577 | Otherwise not: a world where the resumed crawl finds a review that the crawl without interruption misses |
| Crawl.TraceOfBucket | browser-extension/background.js:1290-1582 | From any point the crawl fetches the rest of its bucket, then the ratings that follow, with the total as it is by then, then the scopes that follow |
| Crawl.TraceOfAdvance | browser-extension/background.js:1424-1483 | At the end of a bucket comes the next rating, if the target of the scope is not reached, or the next scope |
| Crawl.WholeByScopes | browser-extension/background.js:1251-1585 | An uninterrupted crawl is the buckets of the three scopes in order, each scope rating by rating until its target is reached, a special scope only if probing finds it; the target of the first is the total of the product page or, failing that, the first that a page gives |
| Crawl.TraceAhead | browser-extension/background.js:1251-1585 | What the crawl fetches depends on the scopes still ahead of it only |
| Crawl.DedupIsSoundExactlyWhen | browser-extension/background.js:1485-1496 | When the extension may withhold what it takes for duplicates: from whichever of some reviews, in whatever order and however often, it collects exactly their keys, if and only if no two of them share a fingerprint without sharing a key |
| Crawl.UnambiguousHaveOneKey | browser-extension/background.js:681-695 | Reviews that are unambiguous on sight are such |
| Crawl.Collect | browser-extension/background.js:1486-1496 | One review of a page: merged into the one collected under its fingerprint or collected and marked for sending, the identities of all others kept |
| Crawl.CollectPage | browser-extension/background.js:1485-1496 | A page: the collection is what collecting its reviews in turn makes of it, every review of the page is collected under its fingerprint, and exactly the new fingerprints are marked |
| Crawl.SentCoversPage | browser-extension/background.js:1485-1548 | What is sent of a page, with what the helper holds, covers the page's keys and adds no others |
| Crawl.Link.Deliver | launch.py:298-392 | A message that arrives, whether just sent or by an earlier run, moves the helper to its cursor and adds its keys, and the crawl can still be completed from there, from every position the helper has had and after any other message |
| Crawl.Arrivals | browser-extension/background.js:127-132 | Any number of messages of earlier runs, arriving in the middle of a run, take nothing from what the run relies on |
| Crawl.SendCheckpoint | browser-extension/background.js:127-132 | A checkpoint message that is lost changes nothing but may arrive later; one that arrives saves the cursor and the rows, whether or not its acknowledgement arrives |
| Crawl.LastWords | browser-extension/background.js:1364-1381 | What a failed fetch leaves: the extension keeps the very point it stands at, which no message need have carried, and may report it to the helper as a checkpoint without rows; the crawl can be completed from both |
| Crawl.NextBucket | browser-extension/background.js:1424-1483 | The end of a bucket moves the cursor to the next rating or ends the scope |
| Crawl.RunningPage | browser-extension/background.js:1498-1548 | After a page is saved, the helper can be resumed from, nothing collected is withheld from it, and what the cursor has still to fetch is what the helper lacks |
| Crawl.CrawlPage | browser-extension/background.js:1290-1582 | One turn of the paging loop, cut short at the fetch or at any message: the helper can be resumed from, a turn fails only if something goes wrong, and a turn that succeeds moves the cursor as one page does |
| Crawl.CrawlScope | browser-extension/background.js:1287-1584 | The paging loop ends; it fails only if something goes wrong, and whatever happens the helper can be resumed from |
| Crawl.ExtractReviews | browser-extension/background.js:1103-1600 | A run from any kept position that may be loaded: the helper's keys only grow, stay among those of the uninterrupted crawl, and are all of them if the run finishes, which it does if nothing goes wrong in it; of the reviews it asks only that no two share a fingerprint without sharing a key |
| Crawl.LoadingIsSafeExactlyWhen | browser-extension/background.js:1203-1205 | Which saved positions may be loaded: whatever the site and wherever the helper stands, the first message of the run leaves the helper resumable exactly when the product page gives the total, or the loaded position has one, or the helper's has none |
| Crawl.StaleTotalLosesRows | launch.py:362-371 | Otherwise, for every total the helper has: a site of pages of at most six rows where the run's first message leaves that total beside regressed scopes, and a review is never fetched again |
| Crawl.CrawlWithCrashes | browser-extension/background.js:1103-1600 | Whatever goes wrong, at whichever steps, as long as it does so finitely often, with each run resumed from the start or any position that the helper has had or the extension kept and that may be loaded, and with messages of earlier runs arriving at any time: the crawl comes to an end, and the helper holds exactly the keys of an uninterrupted one |
| Crawl.FreshStart | launch.py:302-316 | A job without a checkpoint is one to resume from its beginning |
| Chunking.CharBytes | browser_bridge/ingest.py:107 | A character takes one to four bytes, by section 3 of RFC 3629 |
| Chunking.EncodingSplits | browser_bridge/ingest.py:107 | The encoding of a text cut outside a surrogate pair is the encodings of its parts |
| Chunking.WellFormedSplits | browser_bridge/ingest.py:107 | A text cut outside a surrogate pair can be encoded exactly when both parts can |
| Chunking.CutOne | browser-extension/background.js:253-259 | One turn of the loop cuts at most 65536 units and not inside a surrogate pair |
| Chunking.CutChunks | browser-extension/background.js:253-259 | The cutting loop ends; its chunks are the payload in order, none is empty, each is within 65536 units and none but the last more than one short of it, and no surrogate pair is split |
| Chunking.CuttingEncodes | browser_bridge/ingest.py:105-110 | The chunks' sizes add up to the payload's UTF-8 size, and every chunk can be encoded exactly when the payload can |
| IngestRpc.SubmitKeeps | browser_bridge/ingest.py:27-42 | A delivery forgets no unfinished request and changes no other entry; ids stay distinct, the table stays within 512, and each kind of answer is accounted for by an entry |
| IngestRpc.RunsExactlyWhen | browser_bridge/ingest.py:22-42 | Exactly when a delivered id is executed: well formed, not unfinished, no entry younger than 600 s since its submission, and room in the table or a finished entry to give up |
| IngestRpc.RunsTwiceAfterExpiry | browser_bridge/ingest.py:28-29 | An id that has been executed is executed again by a delivery 600 s after its submission: a run of three events |
| IngestRpc.AddChunkKeepsWeighed | browser_bridge/ingest.py:92-113 | After any chunk there are at most 8 uploads, each counting its chunks' bytes exactly and staying within 64 MiB |
| IngestRpc.SizeCheckIsExact | browser_bridge/ingest.py:107-110 | The running check rejects some chunk exactly when the whole payload is larger than 64 MiB |
| IngestRpc.PendingAfterSubmit | browser_bridge/ingest.py:27-42 | After a delivery exactly the unfinished requests before it are unfinished, and the one it started, which was not |
| IngestRpc.DeliverKeepsSound | browser_bridge/ingest.py:22-43 | A delivery keeps the account of every request: what is executing, how many deliveries wait, what has been answered |
| IngestRpc.DoneKeepsSound | browser_bridge/ingest.py:45-51 | So does the end of an execution, which answers every delivery that waits |
| IngestRpc.EveryDeliveryAnsweredOnce | browser_bridge/ingest.py:22-51 | Over every run: no id executes twice at once, an executing id is in the table, the table holds at most 512, and every delivery accepted since an execution began is answered with its outcome |
| IngestRpc.IngestRPC.constructor | browser_bridge/ingest.py:12-20 | No requests, no uploads |
| IngestRpc.IngestRPC.Lookup | browser_bridge/ingest.py:30 | Finds the entry of an id |
| IngestRpc.IngestRPC.OldestDone | browser_bridge/ingest.py:35 | Finds the first finished entry in order of submission |
| IngestRpc.IngestRPC.Unforgotten | browser_bridge/ingest.py:28-29 | Keeps the unfinished and the young entries, in order |
| IngestRpc.IngestRPC.Submit | browser_bridge/ingest.py:22-43 | The new table and the reply, in place, as the specification of a delivery says |
| IngestRpc.IngestRPC.Reply | browser_bridge/ingest.py:45-51 | Each waiting delivery is answered once and the entry keeps the outcome |
| IngestRpc.IngestRPC.ExecuteChunk | browser_bridge/ingest.py:84-113 | The chunk operation, in place, with all its refusals |
| IngestRpc.IngestRPC.ExecuteComplete | browser_bridge/ingest.py:114-119 | The upload is gone and its chunks are joined in order |
| Upload.StatusAfterSubmit | browser_bridge/ingest.py:27-43 | How each id stands after a delivery that forgets none of them |
| Upload.StatusAfterFinish | browser_bridge/ingest.py:45-51 | How each id stands after an execution ends |
| Upload.RoomRemembers | browser_bridge/ingest.py:28-39 | A condition to check beforehand: requests younger than 600 s in a table with room are not forgotten |
| Upload.NextInTurn | browser-extension/background.js:253-260 | An operation is carried out only for the request whose turn it is, and after nothing but successes |
| Upload.AddChunkTo | browser_bridge/ingest.py:84-113 | A chunk is accepted only in its place, and an accepted one extends the upload by itself |
| Upload.PerformChunkKeepsFaithful | browser_bridge/ingest.py:92-113 | The helper's chunks stay the beginning of the sender's |
| Upload.PerformCompleteKeepsFaithful | browser_bridge/ingest.py:114-124 | What is handed over for the store is the whole text |
| Upload.StepKeepsSafe | browser_bridge/ingest.py:22-125 | Every step of sender, channel, helper and other clients keeps the order of operations, the table's account of them and the chunks |
| Upload.UploadIsFaithful | browser-extension/background.js:99-117 | Over every run with loss, repetition, delay and reordering that forgets none of its ids: each operation is carried out once and in order, at most one of them unacknowledged; the chunks held are a prefix of the payload, as many as acknowledged or one more while nothing failed or waited 600 s; the store is given exactly the payload, at most once, and has been when the sender is told of success |
| IdempotencyCache.SetRefines | browser_bridge/transport.py:108-118 | After a set the cache is within its capacity and holds only latest values |
| IdempotencyCache.GetRefines | browser_bridge/transport.py:98-106 | A hit is the latest value ever set for the id, at most 300 s ago; a miss leaves no slot for it |
| IdempotencyCache.CacheRefinesLog | browser_bridge/transport.py:89-118 | The same after any sequence of uses, against an unbounded log of all sets |
| IdempotencyCache.SetKeepsRecent | browser_bridge/transport.py:108-118 | Making room gives up only what expired or the oldest places: with distinct ids the last entries of the log stay |
| IdempotencyCache.GetKeepsRecent | browser_bridge/transport.py:98-106 | So does a lookup |
| IdempotencyCache.FreshEntrySurvives | browser_bridge/transport.py:89-118 | With ids set once and a clock that does not go back, an entry not expired is still answered after any uses with fewer than capacity later sets |
| IdempotencyCache.EvictedExactlyWhen | browser_bridge/transport.py:108-118 | A set evicts a fresh slot of another id exactly when the cache is full and the places after the slot's hold as many fresh slots as the capacity less one, whenever it was set |
| IdempotencyCache.ResetKeepsOldPlace | browser_bridge/transport.py:115-118 | An id set twice keeps its old place and can be evicted after fewer sets: a cache of three |
| IdempotencyCache.Cache.Lookup | browser_bridge/transport.py:98-106 | The lookup, in place |
| IdempotencyCache.Cache.Evict | browser_bridge/transport.py:111-117 | The expiry pass and the eviction loop, in place |
| IdempotencyCache.Cache.Store | browser_bridge/transport.py:108-118 | The set, in place |
| Transport.CallStep | browser_bridge/transport.py:264-389 | A step of a call changes that call alone and takes or gives back a permit exactly as its phase says |
| Transport.StepKeepsCounted | browser_bridge/transport.py:316-389 | No step makes or loses a permit |
| Transport.StepKeepsTied | browser_bridge/transport.py:326-389 | The pending table leads only to unfinished calls of the very id |
| Transport.StepKeepsBusy | browser_bridge/transport.py:331-388 | The mode is busy only while some call has still to clean up |
| Transport.StepKeepsSourced | browser_bridge/transport.py:184-253 | Every success, told, stored or about to be, is the payload of a RESULT envelope of its own id |
| Transport.EveryInterleaving | browser_bridge/transport.py:125-389 | Over every interleaving: permits are conserved, at most as many commands are pending as permits held and never more than the limit, busy implies a permit held, and a success told is the payload of a RESULT of that id |
| Transport.SuccessesAgree | browser_bridge/transport.py:274-278 | Where no command is sent two different results, all successes told for it and the cached one are the same |
| Transport.AbortedNeverSucceeds | browser_bridge/transport.py:255-262 | A caller whose pending command was aborted is never told of success, whatever still arrives |
| Transport.ResetAborts | browser_bridge/server.py:339-412 | Takeover, the owner leaving and rotation empty the pending table, and aborting what was in it wakes each caller with a retryable error |
| Transport.EveryPendingIsAborted | browser_bridge/transport.py:255-262 | Over every run from such a step on, every command that was pending has its caller woken with an error once the reset has got to it |
| Transport.ResetIsRetryableExactlyWhen | browser_bridge/transport.py:255-262 | And over every run from such a step on, a pending command that nothing has woken yet ends, whenever its caller returns, in a failure that is retryable: exactly if its caller no longer waits, or no thread has looked the command up for a result or for an error that is not retryable without yet having acted on it |
| Transport.Spoiling | browser_bridge/transport.py:184-253 | Such a thread can still give the caller its result or its error: the run that does it |
| Transport.LeaseLossResetsExactlyWhen | browser_bridge/server.py:215-412 | Of all steps that take the lease from its owner, takeover, the owner leaving and rotation leave nothing pending, and revoking or stopping leave every pending command where it is |
| Transport.RevokedOwnerLeavesPending | browser_bridge/server.py:229-238 | So no owner does not mean nothing pending: a run that ends that way |
| Transport.OwnerChangesOnly | browser_bridge/server.py:215-418 | The owner changes only by registering where none is live, by explicit takeover, by its own leaving, or by rotation, revocation or stopping |
| Transport.LeaseIsKept | browser_bridge/server.py:339-418 | Over every run the owner keeps the lease and no command is reset while it is open and nobody takes over explicitly, rotates, revokes or stops, however many others connect or leave late |
| Transport.StaleConnectionIsHarmless | browser_bridge/server.py:402-412 | A stale connection's late leaving touches neither the owner nor the mode nor a pending command; a second client without takeover changes nothing |
| Transport.HandledInSteps | browser_bridge/transport.py:184-253 | The handling of an envelope, undisturbed, is its lookup, its effect and its caching in turn |
| Transport.AbortAll | browser_bridge/transport.py:255-262 | Aborting the commands of a reset one by one, in any order, comes to the finished reset, in which each of them and nothing else is aborted |
| Transport.BrowserGateway.constructor | browser_bridge/transport.py:128-143 | All permits free, nothing pending, no owner |
| Transport.BrowserGateway.SetState | browser_bridge/transport.py:145-151 | Sets the mode and nothing else |
| Transport.BrowserGateway.EnterPending | browser_bridge/transport.py:326-336 | The entry of a call into the pending table, in place |
| Transport.BrowserGateway.LeavePending | browser_bridge/transport.py:360-388 | The clean-up of a call, in place |
| Transport.BrowserGateway.HandleInboundEnvelope | browser_bridge/transport.py:184-253 | The handling of every type of envelope, the marks of acceptance and progress among them, in place |
| Transport.BrowserGateway.ResetPending | browser_bridge/transport.py:255-262 | The table is emptied and exactly the commands that were in it are aborted |
| Transport.BrowserGateway.RegisterConnection | browser_bridge/server.py:339-379 | Accepted exactly when no owner is live or a takeover is asked for; then the step of the lease, its reset to the end and the closing of the old owner, and the pending table leads only to unfinished calls as before |
| Transport.BrowserGateway.UnregisterConnection | browser_bridge/server.py:402-412 | The step of leaving and its reset to the end: the owner leaves with a reset, anyone else only closes |
| Transport.BrowserGateway.RotateToken | browser_bridge/server.py:215-227 | The step of rotation, its reset to the end, and the closing of the owner |
| Transport.BrowserGateway.RevokeToken | browser_bridge/server.py:229-238 | The owner is dropped and closed, and nothing else |
| Commands.StepKeepsEndsOnce | browser-extension/background.js:4281-4410 | A command in flight has had no terminal envelope, and none gets a second |
| Commands.EveryCommandEndsOnce | browser-extension/background.js:4281-4410 | Over every run each id is given at most one terminal envelope, however its action, its timer and cancellations race |
| Commands.CachedSuccessIsTheSuccess | browser_bridge/transport.py:204-217 | From the dispatcher to the caller: the success cached for a command is the success it told |
| Commands.Dispatcher.OnCommand | browser-extension/background.js:4281-4318 | A command is in flight and accepted |
| Commands.Dispatcher.OnActionEnd | browser-extension/background.js:4320-4368 | The end of an action answers only a command in flight |
| Commands.Dispatcher.OnDeadline | browser-extension/background.js:4288-4305 | So does its timer |
| Commands.Dispatcher.OnCancel | browser-extension/background.js:4373-4410 | A cancellation answers a command in flight, ends an active job, forgets a job that waits for verification, and answers for itself whether it hit a command or an active job |
| Commands.Dispatcher.CleanupPendingJobState | browser-extension/background.js:1947-1966 | Nothing is kept of a job that waits, and it is no longer on display |
| Jobs.StepKeepsTidy | launch.py:430-441 | No id is queued twice, and only real jobs are queued or in flight |
| Jobs.LosesExactlyWhen | launch.py:807-818 | A step loses a job exactly when it is a progress patch that replaces the terminal status of a job that nothing else accounts for by one that is not terminal, or a handler that takes out of flight a job which has been resumed and accepted again since its result was recorded |
| Jobs.NoJobIsLost | launch.py:872-915 | Over every run without such a step every job is queued, in flight, being resumed, or has a result or terminal progress, and a client that connects is sent every job still owed |
| Jobs.LateProgressLosesJob | launch.py:807-818 | With such a patch a job can be nowhere: a run of four events |
| Jobs.SlowHandlerLosesJob | launch.py:1538-1541 | With such a handler too: a run of seven events |
| Jobs.JobBoard.constructor | launch.py:141-149 | No jobs |
| Jobs.JobBoard.Removed | launch.py:883-887 | Takes out the first occurrence of an id |
| Jobs.JobBoard.QueueJob | launch.py:733-735 | A new job comes last in the queue |
| Jobs.JobBoard.AckJob | launch.py:872-888 | An accepted job moves from the queue to the jobs in flight |
| Jobs.JobBoard.ReleaseInFlight | launch.py:430-441 | Jobs in flight without a result go back to the queue, in order, none twice |
| Jobs.JobBoard.UpdateProgress | launch.py:783-818 | A patch sets the status, and a terminal one takes the job out of flight |
| Jobs.JobBoard.RecordResult | launch.py:1538-1539 | A result is recorded, and its handler has still to take the job out of flight, unless it waits for the user |
| Jobs.JobBoard.LeaveInFlight | launch.py:1540-1541 | Under the other lock the handler takes the job out of flight |
| Jobs.JobBoard.ReopenJob | launch.py:1083-1114 | The result goes, the status is queued, and the job is in the hands of the handler |
| Jobs.JobBoard.RequeueJob | launch.py:1114-1122 | The handler queues the job unless it is queued |
| Executor.DeliverKeepsSerial | browser-extension/background.js:4699-4735 | A delivery starts a job only if none runs, and queues no id that runs or is queued |
| Executor.FinishKeepsSerial | browser-extension/background.js:4673-4697 | The end of a job starts the next one in order |
| Executor.DeliverKeepsRemembered | browser-extension/background.js:4704-4722 | What was taken on is known, and taken on again only by a retry |
| Executor.ForgetsExactlyWhen | browser-extension/background.js:3557 | A step forgets an id that was taken on exactly when it ends a job with more than 1000 ids known, or resumes a job that is running or queued |
| Executor.OneAtATimeAndOnce | browser-extension/background.js:4673-4735 | Under any number of deliveries, replays and resumptions: one job at a time, started in the order taken on, and, as long as nothing is forgotten, no second run of an id without a retry |
| Executor.ReplayIsHarmless | browser-extension/background.js:4704-4719 | A replay of jobs taken on before, without a retry, changes nothing |
| Executor.ForgottenPastTheLimit | browser-extension/background.js:4691 | Beyond 1000 known ids a job that ends is forgotten, and its next replay is taken on again |
| Executor.ForgottenByResuming | browser-extension/background.js:3557-3562 | A job resumed while it runs is forgotten although the retry is skipped, and its next replay after it has ended is taken on again |
| Executor.JobExecutor.TakeNext | browser-extension/background.js:4677-4682 | The loop takes the first job of the queue, or stops |
| Executor.JobExecutor.EnqueueLegacyJob | browser-extension/background.js:4699-4735 | A delivery, in place, with every reason to skip it |
| Executor.JobExecutor.ResumeVerification | browser-extension/background.js:3555-3577 | A resumption, in place: the id is forgotten and the retry enqueued |
| Executor.JobExecutor.JobSettled | browser-extension/background.js:4686-4697 | The end of a job, in place, and the turn of the loop after it |
| Delivery.DeliveredIsTaken | browser-extension/background.js:4699-4735 | A delivery that is acknowledged is of a job taken on now or before |
| Delivery.StepKeepsJoined | launch.py:872-933 | Every step of helper, extension and the messages between them keeps what each side keeps by itself, and a job leaves the queue only once the extension has taken it on |
| Delivery.ReplayIsTakenOn | launch.py:891-915 | After a replay has arrived, every job in it has been started or waits in the queue of the executor |
| Delivery.JobsReachTheExtension | launch.py:872-933 | Over every run of both sides, with messages lost, late and repeated and the worker stopped at any time: no job is lost; what is in flight was taken on, and is started or queued there if the worker was never stopped; and a replay to a client that connects puts every job still owed into the hands of its executor |
| Delivery.RunsOneAtATime | browser-extension/background.js:4673-4735 | In the same runs jobs run one at a time, and in one life of the worker, as long as nothing is forgotten, a second run of a job is by a retry |
| Bytes.NumberOfBigEndian | browser-control-plane/agent/framing.py:40 | A number survives packing and unpacking |
| Bytes.BigEndianOfNumber | browser-control-plane/agent/framing.py:55 | Bytes survive unpacking and packing |
| Bytes.XorTwice | browser_bridge/server.py:117-118 | Masking a byte twice with the same mask gives it back |
| BcpFrame.LengthIsExact | browser-control-plane/agent/framing.py:37-48 | A frame is refused only for a count that does not fit in 32 bits or an attachment id not 16 bytes long, and its length field counts the kind byte and the payload exactly |
| BcpFrame.ParseOfEncode | browser-control-plane/agent/framing.py:50-70 | An encoded frame in front is parsed back and what follows it is left |
| BcpFrame.PrefixIsIncomplete | browser-control-plane/agent/framing.py:52-57 | Less than a whole frame consumes nothing |
| BcpFrame.ParsedIsEncoded | browser-control-plane/agent/framing.py:50-70 | The buffer is parsed as a frame and a rest exactly when it is that encoding followed by that rest, but for length fields too small for their kind |
| BcpFrame.EmptyFrameBorrowsItsKind | browser-control-plane/agent/framing.py:55-61 | Those are not refused: a length of zero takes the next frame's first byte for its kind |
| BcpFrame.MoreBytes | browser-control-plane/agent/framing.py:50-70 | More bytes at the end change nothing in front |
| BcpFrame.DrainInPieces | browser-control-plane/agent/main.py:368-371 | However a buffer is drained and whatever comes after it: what was taken and what the rest holds with what comes after is all there is; only null frames are skipped, and a drain that does not halt at one leaves no whole frame |
| BcpFrame.NullHoldsBack | browser-control-plane/agent/main.py:369-371 | A frame behind a null one in the same chunk waits for the next chunk |
| BcpFrame.StreamNeverFails | browser-control-plane/agent/main.py:362-371 | No beginning of a stream of encoded frames fails to parse |
| BcpFrame.Receive | browser-control-plane/agent/main.py:362-371 | Over arbitrary bytes: what the loop has taken and what its buffer still holds is all there is in what it received; whole frames wait in the buffer only if a null frame came; it stops only where what it has received so far cannot be parsed or decoded |
| BcpFrame.DrainBuffer | browser-control-plane/agent/main.py:368-371 | The inner loop parses until there is no whole frame, or one is read as null, or one cannot be parsed or decoded |
| BcpFrame.ReceiveStream | browser-control-plane/agent/main.py:362-371 | However a stream of frames is cut and wherever it stops, exactly the whole frames that are not null come out or wait, in order, and the remainder is the unparsed suffix; without null frames nothing waits |
| WsFrame.MaskedTwice | browser_bridge/server.py:115-118 | Masking a payload twice gives it back |
| WsFrame.ParseOfWire | browser_bridge/server.py:88-120 | A client frame of RFC 6455 in front of the stream is read exactly, in any of the three forms of its length, and nothing after it is touched |
| WsFrame.ParsedIsWire | browser_bridge/server.py:88-120 | And nothing but a client frame is read: what is consumed is the frame returned |
| WsFrame.EncodesShortest | browser_bridge/server.py:78-85 | The length is written in the fewest bytes that hold it |
| WsFrame.ReceiveOfEncode | browser_bridge/server.py:78-85 | A receiver by section 5.2 of RFC 6455 reads an encoded frame back and leaves what follows |
| WsFrame.EncodingsCutOneWay | browser_bridge/server.py:78-85 | Encoding is injective and prefix-free: a stream of encoded frames can be cut in one way only |
| WsFrame.Socket.Recv | browser_bridge/server.py:57 | The socket delivers any number of bytes from one to as many as asked for, in order, and none only at its end |
| WsFrame.BufferedSocketReader.ReadExact | browser_bridge/server.py:50-62 | Exactly the next bytes of leftover and wire, however they arrive, and an error when there are too few |
| WsFrame.UnmaskInPlace | browser_bridge/server.py:116-118 | The loop unmasks the payload in place |
| WsFrame.ReadSize | browser_bridge/server.py:107-110 | The length in its three forms |
| WsFrame.ReadBody | browser_bridge/server.py:115-120 | The mask and the unmasked payload |
| WsFrame.ReadFrame | browser_bridge/server.py:88-120 | One frame, or the error it is refused for, and exactly its bytes consumed |
| WsFrame.ReadFrames | browser_bridge/server.py:88-120 | Reading as many frames as were sent, over any split into leftover and pieces, gives that sequence and leaves what follows |
| ZipSplit.TightPartIsFull | launch.py:1825-1828 | A part that the loop closes is over the limit together with the next file |
| ZipSplit.GreedyStaysAhead | launch.py:1820-1835 | Part for part the split reaches at least as far as any other that keeps order and limit |
| ZipSplit.TightIsMinimal | launch.py:1820-1835 | So it has the fewest parts of all of them |
| ZipSplit.SplitParts | launch.py:1820-1835 | The splitting loop: the files in order, no part empty, each within the limit unless it is one file over it, and no such split has fewer parts |
| Sink.EveryRecordCounted | crawler/sink.py:34-111 | The four counts of a batch add up to its records |
| Sink.VersionLogIsCompressedHistory | crawler/sink.py:78-106 | With article ids fixed by the dedup keys, no write is refused, and the versions of a key followed by its current hash are the hashes written for it without immediate repetitions |
| Sink.OriginNeverChanges | crawler/storage.py:216-237 | First-seen time, id and the other columns of the insert never change, and no article is dropped |
| Sink.WrittenIsHad | crawler/sink.py:78-106 | After a batch of distinct keys the store has the version of each record |
| Sink.RewritingIsIdempotent | crawler/sink.py:88-93 | Writing such a batch again adds no version and changes nothing but the last-seen times |
| Sink.LogFollowsExactlyWhen | crawler/sink.py:94-106 | An update adds the replaced hash to the article's log exactly when the record comes under the id the article was stored with |
| Sink.LogStaysTrueExactlyWhen | crawler/sink.py:94-106 | The log of any stored article stays true to its history through a write exactly if an update comes under the id of this article when it is of this article, and not when it is of another: an update of another article under this id puts a hash into the log that this article never had there |
| Sink.LogStartsTrueExactlyWhen | crawler/sink.py:84-87 | The log of a new article is true exactly if its insert is not refused and no versions are filed under its id already |
| Sink.LogsTrueExactlyWhen | crawler/sink.py:78-106 | Over whole runs of writes: none is refused and the log of every article is true all along, exactly if every update comes under the id its article was stored with and every insert under an id that no article has |
| Sink.VersionFiledUnderOtherId | crawler/sink.py:97-102 | With another id for the same key the version is filed under an id that no article has: two concrete writes |
| Sink.CrawlerStorage.FindId | crawler/storage.py:63-66 | Whether another row holds the primary key |
| Sink.CrawlerStorage.UpsertArticle | crawler/storage.py:216-237 | Update by dedup key, whatever the id, or insert, or refusal of an insert with a taken primary key, in place |
| Sink.CrawlerStorage.UpdateArticleLastSeen | crawler/storage.py:247-251 | Sets the last-seen time of the row with the key |
| Sink.CrawlerStorage.SaveVersion | crawler/storage.py:253-261 | Appends a version |
| Sink.CrawlerStorage.QuarantineRecord | crawler/storage.py:263-271 | Appends to the quarantine |
| Sink.WriteRecord | crawler/sink.py:39-109 | One record, in place, through all branches |
| Sink.Write | crawler/sink.py:34-111 | The loop over a batch, up to the first record the store refuses |
| Frontier.BackoffBounded | crawler/retry.py:20-25 | A delay is positive, at most 1.1 times the maximum, never less than without jitter, and without jitter grows with the attempts |
| Frontier.DecisionBounded | crawler/retry.py:28-100 | Whatever the failure: at most five attempts, a wait of at most 132 s, and a retry exactly where attempts are allowed |
| Frontier.QueryTakesTheBest | crawler/storage.py:152-166 | What is taken is pending, each task once, in order of priority, and nothing left behind has a higher priority than anything taken |
| Frontier.FailKeepsHealthy | crawler/frontier.py:55-73 | A failure puts a task back only within the limit |
| Frontier.DequeueKeepsHealthy | crawler/frontier.py:29-49 | Taking tasks uses up what putting back allowed |
| Frontier.EnqueueKeepsHealthy | crawler/frontier.py:19-27 | Enqueuing adds no second row for a source and key of which none is dead or gone |
| Frontier.RedriveKeepsHealthy | crawler/storage.py:187-195 | A manual re-drive starts a new count |
| Frontier.RetriesTerminate | crawler/frontier.py:19-87 | Over every run a task is taken at most six times from its enqueuing or re-drive on, its attempts stay within five, and a source and key have one row until one of theirs is dead or gone |
| Frontier.DeadRowLetsInMore | crawler/frontier.py:21-26 | After that, because only the first row is looked at, one task after another is let in |
| Frontier.CrawlerStorage.SaveTask | crawler/storage.py:107-119 | Replaces the row of the id, and the new row comes last |
| Frontier.CrawlerStorage.GetTaskByDedupKey | crawler/storage.py:129-135 | The first row of the source and key |
| Frontier.CrawlerStorage.GetTask | crawler/storage.py:121-127 | The row of the id |
| Frontier.CrawlerStorage.GetPendingTasks | crawler/storage.py:152-166 | The query by priority, with an empty source standing for all: what it takes is pending, each once, in order of priority, and nothing it leaves has a higher one, with the order among equals left open |
| Frontier.CrawlerStorage.UpdateTaskState | crawler/storage.py:137-141 | Sets the state of the row of the id, in place |
| Frontier.CrawlerStorage.UpdateTaskRetry | crawler/storage.py:143-150 | Puts the row of the id back with the attempt count given, in place |
| Frontier.CrawlerStorage.RequeueDeadLetters | crawler/storage.py:187-195 | Puts every dead row of the source back with no attempts, in place |
| Frontier.TaskQueue.Enqueue | crawler/frontier.py:19-27 | Refused exactly when the first row of the source and key is pending, in flight or done |
| Frontier.TaskQueue.Dequeue | crawler/frontier.py:29-49 | Takes the best pending tasks, whichever of equal ones, and marks exactly those as in flight |
| Frontier.TaskQueue.Complete | crawler/frontier.py:51-53 | Marks the task as done |
| Frontier.TaskQueue.Fail | crawler/frontier.py:55-73 | Puts the task back, with an attempt count within the limit of the decision, or dead-letters it; an unknown id changes nothing |
| Frontier.TaskQueue.MarkGone | crawler/frontier.py:75-77 | Marks the task as gone |
| Compliance.BreakerIsFaithful | crawler/compliance.py:39-78 | After any history the breaker's counters are the failures of each kind since the last success, and it is closed exactly when it has not opened since |
| Compliance.OpenCircuitRefuses | crawler/compliance.py:48-59 | It has opened only after three 429s or five server errors since the last success, and a check is refused exactly while less than 600 s have passed since the last opening with no success in between |
| Compliance.ReopensAtOnce | crawler/compliance.py:66-78 | One more failure of the kind that tripped it opens it again at once, from half-open too |
| Compliance.HalfOpenLetsAllPass | crawler/compliance.py:58-59 | Half-open lets any number of checks pass, not one |
| Compliance.ZeroDelayExactlyWhen | crawler/compliance.py:88-103 | No delay exactly when the interval has passed or less than a millisecond of it and the jitter is left |
| Compliance.PenaltyIsRemembered | crawler/compliance.py:108-110 | The penalty in force is that of the last 429 |
| Compliance.AllowsAreSpaced | crawler/compliance.py:88-110 | Two requests allowed for a host are further apart than the interval less a millisecond, doubled inside a penalty |
| Compliance.CircuitBreaker.constructor | crawler/compliance.py:42-46 | Every host starts closed with no failures |
| Compliance.CircuitBreaker.Check | crawler/compliance.py:48-59 | The check of a host, in place, and no effect on other hosts |
| Compliance.CircuitBreaker.OpenCircuit | crawler/compliance.py:76-78 | Opens a host for 600 s |
| Compliance.CircuitBreaker.RecordResponse | crawler/compliance.py:61-74 | The effect of a response on its host alone |
| Compliance.RateLimiter.GetDelayMs | crawler/compliance.py:88-103 | The delay of a host |
| Compliance.RateLimiter.RecordRequest | crawler/compliance.py:105-106 | Remembers the time of a request |
| Compliance.RateLimiter.Record429 | crawler/compliance.py:108-110 | Penalizes a host for the given time or 30 minutes |
| Compliance.ComplianceEngine.Authorize | crawler/compliance.py:167-207 | The gates in order: which refusal wins, what each gate that is reached changes, and that a request is recorded exactly when it is allowed |
| Compliance.ComplianceEngine.RecordResponse | crawler/compliance.py:209-213 | A response reaches the breaker, and a 429 the limiter |

## Left out

- Crawl.ExtractReviews: under the conditions that the short pages on the crawl's way are the last of their buckets (`Crawl.ResumesExactlyWhen`), that the loaded position may be loaded (`Crawl.LoadingIsSafeExactlyWhen`), that no two reviews on the crawl's way share a fingerprint without sharing a key (`Crawl.DedupIsSoundExactlyWhen`, `Fingerprints.FixesKeyExactlyWhen`), and that the limit of 20000 reviews does not bind.
- Crawl.CrawlWithCrashes: under the same conditions. A message of an earlier run arrives only if it does not mix totals, in the sense of `Crawl.LoadingIsSafeExactlyWhen`: always where the product page gives the total.
- Crawl.ResumesExactlyWhen: where a short page is followed by more and its scope has a further rating to go to, the two crawls differ too, but what they fetch can coincide by chance; nothing is said of that case.
- Fingerprints.FixesKeyExactlyWhen: which texts are times is a parameter, and the other fields range over all texts, among them star ratings that are no numbers.
- Upload.UploadIsFaithful: assumes that no request id of the upload is forgotten while it runs, by age or for room; `Upload.RoomRemembers` gives a condition for it, and `IngestRpc.RunsTwiceAfterExpiry` shows what happens otherwise.
- Sink.VersionLogIsCompressedHistory: needs the article id to be fixed by the dedup key, as `Sink.VersionFiledUnderOtherId` and `Sink.LogsTrueExactlyWhen` show.
- BcpFrame: JSON texts stand as bytes, and what `json.loads` makes of them is a parameter; what is done with a frame, and closing the connection, are not modelled.
- Reviews and Checkpoint: a JSON value is its truthiness and its text; the lengths that the extension counts in UTF-16 units and the helper in characters are the lengths of that text. Fields no merge looks at (`anh`, `video`, `huu_ich`, the counts shown to the user) are not modelled, and the ids and the rating summary of a checkpoint are texts kept as they are sent.
- Crawl: probing is a fixed answer of the site; the extension's own copy of the position is kept at every failed fetch, whatever the failure, and otherwise is one that the helper has had; the migration of old checkpoints is not modelled. Tab recovery, failure classification and verification are a failed fetch.
- IngestRpc: the operations `progress`, `checkpoint` and `finalize` are the helper's own functions (see Jobs and Checkpoint); JSON decoding of the joined text is taken to succeed on what the extension encoded.
- Commands: timers and listeners that watch a job waiting for verification, and commands that are not commands of the helper.
- Transport: verification details, and the validation of parameters, which is a refusal that may always come. Two threads' clocks are one.
- Jobs: the HTTP claim, which takes jobs without tracking them, and clearing everything.
- Executor and Delivery: clearing and cancelling jobs, which reset the queue under a running job.
- WsFrame: the HTTP handshake, and sending under the connection's lock.
- ZipSplit: which files go into the first part besides media (the CSV and the manifest are not counted by the loop), and writing the archives.
- Compliance: the robots cache, which is an answer given from outside; floating-point rounding of the clock.
- Frontier: `next_run_at`, which the query ignores, and the runner, whose calls do not fit the queue's signatures.
- Persistence to disk, sockets, threads as such, screenshots, page scripts, the HTTP polling transport, metrics, extractors and record schemas: plumbing or calls into code outside the repository.
