# Poll backend: a verified model of the vote pipeline

A vote is accepted by an API worker, waits in a per-poll buffer, goes through a sharded sender
into a partitioned log, is deduplicated and counted by the consumer, and ends up in one results
row per poll. This project models each of these parts and their composition, and proves what
the design relies on: no accepted vote is missing from the consumer's state once its worker has
said "done", a crash loses no tally, and a result is stored once and for good.

Each part is given twice. Functions on values describe its critical sections (what happens under
one lock, or one call to the outside); runs interleave them in every order. Classes hold the
mutable state, and each method is proved to do what its section's function says. The records
that goroutines keep pointers to between sections (a poll's buffer, a cache entry) are heap
objects; the limiter's order slice is a window of an array compacted in place.

| file | part |
|---|---|
| `Votes.dfy`, `Totals.dfy` | the deduplicating fold over batches; the results document |
| `Service.dfy` | what the results service answers about a poll |
| `Buffer.dfy`, `Lifetimes.dfy`, `VoteBuffer.dfy` | one poll's buffer and drainer; all its lifetimes between cleanups; the sharded buffer |
| `Sender.dfy`, `Hashing.dfy` | sharded FIFO queues with retrying workers; the shard hash |
| `Metadata.dfy` | the single-flight metadata cache |
| `Limiter.dfy` | the cookie issue limiter |
| `Signature.dfy` | the signed cookie |
| `Store.dfy` | the results row and its conditional update |
| `ConsumerState.dfy`, `Consumer.dfy` | the consumer's critical sections; the consumer object |
| `ConsumerRuns.dfy` | the consumer as a step system, with any goroutines, failures and crashes |
| `ConsumerStored.dfy` | what a poll's row ends up holding |
| `ConsumerCheck.dfy` | one sequential check of all polls, and what a failed commit leaves to it |
| `ConsumerSteps.dfy` | the consumer's methods as runs; what a sequence of end-time lookups learns |
| `ConsumerReplay.dfy` | cooling over whole runs; what a replay after a crash claims and stores |
| `Server.dfy` | the end-time gate and the watcher |
| `Pipeline.dfy` | any number of workers, the log and the consumer together |

How the runs are set up:

- In `ConsumerRuns` any number of goroutines take any critical section at any time; they are
  bound only to finish a flush or a commit they began. The message loop and the periodic check
  are two such goroutines, so what holds here holds for them. Messages of one partition are
  registered in reading order, as the single reader does. A read and its registration are one
  step: nothing else looks at the read position in between.
- A flush attempt is answered, or takes effect with its answer lost, or does not happen; a
  commit is applied or not, and reported as done or not, independently. A crash can come at any
  point; it empties the memory and moves the read position back to the committed position.
- A malformed message waits in the queue with the zero message in place of its own
  (`internal/consumer/consumer.go:395-399`), so committing it moves no position; the position a
  commit moves to is the one after the last real message of the cut prefix.
- In `Sender` a write can be stored and yet be reported as failed, and the retry then stores it
  again; or it can time out and land at any time later, after its retry and other batches, or
  never (`internal/kafka/segmentio.go:51-67`). What is claimed of the log allows for both.
- In `Pipeline` the buffers of a poll are cleaned up and started again at any time. Worker and
  poll ids are not empty, every worker has its own id, and other writers put only malformed
  messages into the log.

Where the code and its documentation differ, the model follows the code:

- `specs/consumer.md:54` says that a message resets its own poll's stale count. It does not
  (`internal/consumer/consumer.go:199-208`): `StaleCountIsCumulative` says what the count is
  after any run.
- `specs/consumer.md:118-121` describes a restart as a recount from scratch without loss.
  Reading again does rebuild the tally message by message (`ReplayRebuildsTheTally`), but the
  poll is checked on the way, after each of its messages and by the periodic pass.
  `ReplayReadsOn` says exactly when, whatever partitions are read in whatever order, no check
  claims it: at every check it has not been seen again, or its end time is not known, or the
  grace period is not over, or the hard deadline is not and what was read gives neither a
  quorum nor staleness. `ReplayStoresWhatItRead` says what an early claim stores and when that
  is less than the log holds; `LateReplayStoresLess` is a run in which it is.
- `specs/consumer.md:97` says that a completed poll's messages are committed. Messages that
  arrive while the flush runs are committed too, but the results were built before them
  (`internal/consumer/consumer.go:326-338`). What is stored is what had been read at the claim
  (`StoredIsWhatWasRead`); `StoredAgainstCommitted` says exactly when that is short of what is
  committed, `CommittedButNotStored` is a run in which it is.
- `specs/api.md:211` promises one done marker per poll and worker. That holds within one
  lifetime of the poll's buffer (`DoneIsSentOnceAndLast`). Over all lifetimes there are as many
  markers as effective closes (`OneMarkerPerClose`), and more than one exactly when a close
  follows a cleanup that dropped the buffer (`MoreThanOneMarker`);
  `ClosedDrainedCleanedClosed` is such a run.
- `specs/api.md:217-219` demands that a poll's done marker follows all its vote batches. It
  follows all votes of its own lifetime and of the earlier ones (`MarkerCovers`), and d markers
  cover the first d lifetimes (`MarkersCoverLives`); votes after a marker are of a later lifetime
  (`OnlyLaterVotesFollow`), and `MarkerBeforeLaterVote` is a run in which there is one. The
  end-to-end results say which votes they count accordingly.
- A periodic check is meant to finish what is due. `OnePassDrains` says exactly when one pass
  does; `FailedCommitLeavesAPoll` is a run after which no pass does.
- The counts of single options do depend on the order of the votes, exactly when a fingerprint
  votes for two options (`CountsIgnoreOrder`).

## Model

| member | source | states |
|---|---|---|
| Votes.CountsAreFirstVotes | internal/consumer/consumer.go:189-195 | the one-pass dedup counts, for every option, exactly the votes that are the first of their fingerprint, and remembers exactly the fingerprints that voted |
| Votes.AbsorbAllCounts | internal/consumer/consumer.go:185-198 | cutting the votes into batches differently changes nothing that is counted |
| Votes.TallyIgnoresOrderAndRepetition | internal/consumer/consumer.go:185-198 | the fingerprints, the total and both worker sets depend only on which batches arrived, not on order or redelivery; nor do the counts, if no fingerprint votes for two options |
| Votes.RedeliveryIsIdle | internal/consumer/consumer.go:189-195 | absorbing a batch again changes no field of the tally |
| Votes.CountsAreVoters | internal/consumer/consumer.go:189-195 | while no fingerprint votes for two options, every option counts exactly those who voted for it |
| Votes.CountsIgnoreOrder | internal/consumer/consumer.go:189-195 | the counts of the options are the same for every order of the votes exactly when no fingerprint occurs with two options |
| Votes.TotalIsDistinctFingerprints | internal/consumer/consumer.go:479-482 | the counts of all options add up to the number of distinct fingerprints |
| Votes.DoneWorkersWereSeen | internal/consumer/consumer.go:186-198 | a worker counted as done is also counted as seen |
| Totals.WorkersAreCounted | internal/consumer/consumer.go:474-478 | the reported workers are the distinct ones that sent a message, and those that sent a done mark |
| Totals.BuildResults | internal/consumer/consumer.go:467-484 | for every iteration order of the count map the outcome is the one results document of the tally |
| Totals.ResultsUnique | internal/consumer/consumer.go:467-484 | a strictly ascending option list with the right counts and total is unique for a tally |
| Totals.TotalCountsEachVoterOnce | internal/consumer/consumer.go:467-484 | the reported total is the number of distinct fingerprints over all absorbed batches |
| Buffer.RunKeepsInv | internal/api/buffer.go:96-176 | any interleaving of Add, Close and the drainer keeps: sent, in flight and queued are the accepted votes cut into batches, one drainer, and a wake token whenever a waiting drainer has work |
| Buffer.Conservation | internal/api/buffer.go:96-176 | at every point sent, in flight, queued and collected votes are together the accepted votes, in order |
| Buffer.StreamShape | internal/api/buffer.go:105-132 | what goes out is full batches, at most one shorter and never empty, then one done marker, last |
| Buffer.DoneIsSentOnceAndLast | internal/api/buffer.go:114-135 | when a done marker has been sent it is the last element, nothing is queued or in flight, and every accepted vote was sent before it |
| Buffer.BlockedOnlyWhenIdle | internal/api/buffer.go:139-166 | no lost wakeup: a drainer that cannot move has an empty queue and an open poll |
| Buffer.ClosedBufferDrains | internal/api/buffer.go:156-176 | after Close, whatever other calls interleave, a bounded number of drainer turns ends it with the whole stream sent |
| VoteBuffers.PollBuffer.Accept | internal/api/buffer.go:101-111 | adds the vote unless the poll is closed, queues a full batch, wakes the drainer |
| VoteBuffers.PollBuffer.Shut | internal/api/buffer.go:122-134 | closes once: queues the rest and the done marker, wakes the drainer |
| VoteBuffers.PollBuffer.WakeDrainer | internal/api/buffer.go:139-150 | starts the drainer on the first call, leaves a token on later ones |
| VoteBuffers.PollBuffer.TakeNext | internal/api/buffer.go:158-170 | the drainer's section: take the oldest element, or wait, or exit once closed and empty |
| VoteBuffers.PollBuffer.FinishSend | internal/api/buffer.go:172-174 | the element taken is the next one sent |
| VoteBuffers.VoteBuffer.PollLocked | internal/api/buffer.go:71-92 | finds or creates the poll's only buffer, in the shard of its hash |
| VoteBuffers.VoteBuffer.Add | internal/api/buffer.go:96-112 | accepts exactly when the poll's buffer is open; no other poll's buffer changes |
| VoteBuffers.VoteBuffer.Close | internal/api/buffer.go:117-135 | reports an earlier close, otherwise closes; no other poll's buffer changes |
| VoteBuffers.VoteBuffer.PollIDs | internal/api/buffer.go:180-191 | lists every known poll exactly once although shards are visited separately |
| VoteBuffers.VoteBuffer.Cleanup | internal/api/buffer.go:194-207 | drops exactly the buffers that are closed, have an empty queue and are older than ttl |
| Lifetimes.RunKeepsInv | internal/api/buffer.go:96-207 | any interleaving of calls, cleanups and the drainers of live and dropped buffers keeps the stream of each lifetime, and nothing but done markers is sent after a later lifetime's element |
| Lifetimes.DroppedWasSent | internal/api/buffer.go:194-207 | every vote a dropped buffer accepted has been sent; at most its done marker is still in the drainer's hands |
| Lifetimes.CleanupTakesTheExpired | internal/api/buffer.go:194-207 | a cleanup takes a buffer out exactly when it is closed, has nothing queued and was closed more than ttl ago; any other stays as it is |
| Lifetimes.RecentlyClosedStays | internal/api/buffer.go:117-207 | a buffer closed at time t stays closed and in place through every cleanup that comes no more than its ttl after t |
| Lifetimes.OneMarkerPerClose | internal/api/buffer.go:117-135 | over all lifetimes of a poll's buffer the done markers queued, in flight or sent are as many as the closes that found it open |
| Lifetimes.MoreThanOneMarker | internal/api/buffer.go:117-207 | a poll has more than one done marker exactly when a close that found it open came after a cleanup that dropped its buffer |
| Lifetimes.MarkerCovers | internal/api/buffer.go:156-207 | a done marker is sent after every vote of its own and of all earlier lifetimes, even by the drainer of a dropped buffer while a later lifetime runs |
| Lifetimes.MarkersCoverLives | internal/api/buffer.go:156-207 | with d done markers among a poll's first sends, every vote of at least its first d lifetimes is among them |
| Lifetimes.OnlyLaterVotesFollow | internal/api/buffer.go:156-207 | votes sent after a done marker belong to a later lifetime |
| Lifetimes.MarkerBeforeLaterVote | internal/api/buffer.go:156-207 | a dropped buffer's drainer sends its marker after a vote of the next lifetime has been accepted |
| Lifetimes.ClosedDrainedCleanedClosed | internal/api/buffer.go:194-207 | close, drain, cleanup after ttl, close: two markers are sent |
| Hashing.HashLoop | internal/api/buffer.go:71-78 | the byte loop computes the 32-bit FNV-1a hash |
| Hashing.KnownHashes | internal/api/buffer.go:71-78 | published values of that hash, and the shards they give |
| Sending.RunKeepsInv | internal/api/sender.go:98-134 | any interleaving of callers, workers and write outcomes keeps every batch in its poll's shard and every poll in order |
| Sending.OrderIsKept | internal/api/sender.go:98-160 | per poll, enqueued is produced, then being retried, then queued, in order; every copy in the log stands after copies of all earlier batches, late writes included, and without late ones the log is the produced batches in that order, repeated at most |
| Sending.FailuresAreCounted | internal/api/sender.go:111-134 | the failure counter counts exactly the attempts reported as failed |
| Sending.RepeatsPrefix | internal/api/sender.go:111-134 | however far such a log is read, what was read is a beginning of what was sent |
| Sending.CausalIsABeginning | internal/api/sender.go:111-134 | whatever beginning of a log with late writes is read, the batches in it are those of a beginning of what was sent |
| Sending.Sender.Enqueue | internal/api/sender.go:158-160 | appends to the queue of the poll's shard, or blocks while it is full |
| Sending.Sender.Receive | internal/api/sender.go:104-105 | a worker takes the oldest batch of its shard |
| Sending.Sender.ProduceWithRetry | internal/api/sender.go:111-134 | retries one batch until acknowledged and never gives it up or starts another before |
| Metadata.RunKeepsInv | internal/api/metadata.go:63-139 | any interleaving of requests keeps: an entry is in flight exactly while its one leader fetches, and stays the map's entry until then |
| Metadata.OneFetchPerPoll | internal/api/metadata.go:86-113 | two requests are never fetching the same poll at once |
| Metadata.WaitersHaveALeader | internal/api/metadata.go:74-134 | a waiter's channel is closed or has a live leader; a leader that finishes closes an open channel, once |
| Metadata.RepliesAreFresh | internal/api/metadata.go:66-73 | a reply is exactly an answer of the service, poll with its options or error, never neither, and unless its own wait was cancelled is the answer of a fetch of that poll that ended less than ttl before, or less than min(ttl, 1s) if it is an error |
| Metadata.NextFetchWaits | internal/api/metadata.go:109-137 | the next fetch of a poll starts no earlier than ttl after a successful one ended, or min(ttl, 1s) after a failed one ended |
| Metadata.FetchRateIsBounded | internal/api/metadata.go:109-137 | the k-th fetch of a poll after another starts at least k times min(ttl, 1s) later, and k times ttl if those before it succeeded |
| Metadata.PollCache.FastPath | internal/api/metadata.go:66-84 | the look under the read lock: serve, wait or miss |
| Metadata.PollCache.LookAgain | internal/api/metadata.go:87-111 | the second look under the full lock: serve, wait, or install a new entry in flight and lead |
| Metadata.PollCache.Finish | internal/api/metadata.go:115-138 | fills the leader's own entry with the answer, its option set and its lifetime, and closes the channel |
| Limiter.FirstCallsAreGranted | internal/api/issued.go:65-107 | without an entry bound and up to the key's fixed expiry, exactly the first limit calls for a key are granted, whatever other calls, at whatever times, and compactions before the expiry come between |
| Limiter.ExpiryInstantDependsOnCompaction | internal/api/issued.go:74-107 | at the very instant of expiry a call is refused, unless a compaction came in between |
| Limiter.ExpiredKeysStartOver | internal/api/issued.go:74-90 | past its expiry a key's next call is granted and is the first of the next limit |
| Limiter.NewKeysGoLast | internal/api/issued.go:74-79 | a key without a live entry starts at one and goes to the back of the order |
| Limiter.KeptInOrder | internal/api/issued.go:97-107 | compaction keeps the kept keys in their order |
| Limiter.CallsInTime | internal/api/issued.go:74-90 | up to the expiry a call is granted exactly while the count is below the limit, counts if granted, and puts its own expiry either way |
| Limiter.NoLimit | internal/api/issued.go:66-68 | with a limit of zero or less everything is granted and nothing remembered |
| Limiter.TrimDropsTheOldest | internal/api/issued.go:110-116 | eviction takes keys off the front of the order, with their entries, and no more than the bound demands |
| Limiter.EntriesAreBounded | internal/api/issued.go:94-116 | every key with an entry is in the order, and with a bound no call leaves more entries than that |
| Limiter.CompactionDropsTheExpired | internal/api/issued.go:97-107 | an order of more than 64 keys is compacted, and that drops exactly the expired keys |
| Limiter.IssueLimiter.CompactInPlace | internal/api/issued.go:97-107 | writing kept keys over the slice being read, while deleting from the map being tested, is the filter by the original map |
| Limiter.IssueLimiter.EvictLocked | internal/api/issued.go:94-116 | compaction, then eviction from the front while there are too many entries |
| Limiter.IssueLimiter.Allow | internal/api/issued.go:65-90 | answers and updates as one call of the specification |
| Signature.VerifyAcceptsExactlySignatures | internal/fingerprint/signature.go:104-128 | Verify accepts a cookie for a value exactly when the value is not empty and the cookie is its signature up to the case of hex letters |
| Signature.AcceptedCookies | internal/fingerprint/signature.go:104-128 | Verify accepts exactly a non-empty value, a dot and 64 hex digits of the MAC over this poll id, a zero byte and the part of the value that fits 128 bytes |
| Signature.TwoPollsCollide | internal/fingerprint/signature.go:104-128 | if two polls accept one cookie, two different messages have the same MAC |
| Signature.SignedCookies | internal/fingerprint/signature.go:81-93 | what is printed, over the poll id; a poll id of 128 bytes panics |
| Signature.VerifyPanics | internal/fingerprint/signature.go:104-128 | exactly the well-formed cookies panic for a poll id of 128 bytes or more |
| Signature.HexDigits | internal/fingerprint/signature.go:89-91 | hex puts the high nibble first, in lower case |
| Signature.SignThenVerify | internal/fingerprint/signature.go:81-128 | a signed value is recovered exactly when it is not empty; dots in it do no harm |
| Signature.MessagesAgree | internal/fingerprint/signature.go:71-76 | for poll ids without a zero byte, two signed messages agree exactly when the polls do and the values do on the bytes that fit the buffer |
| Signature.MessageIsInjective | internal/fingerprint/signature.go:56-76 | on values that fit the 128-byte buffer the signed message determines poll and value |
| Signature.DecodesTo | internal/fingerprint/signature.go:117-120 | a hex string decodes to given bytes exactly when its lower-case form is their encoding |
| Signature.SignInto | internal/fingerprint/signature.go:63-78 | the fixed buffer holds poll, zero byte and as much of the value as fits; a poll id of 128 bytes panics |
| Signature.SignCookie | internal/fingerprint/signature.go:81-93 | prints value, dot and hex of the MAC |
| Signature.VerifyCookie | internal/fingerprint/signature.go:104-128 | the order of the checks, including the panic on an overlong poll id |
| Store.FirstFlushWins | internal/results/postgres.go:104-128 | over any sequence of flushes the row keeps the results of the first that found it active |
| Store.WrittenOnce | internal/results/postgres.go:104-128 | after a flush of a poll was written, every later one is told that it was already completed |
| Store.Storage.FlushResults | internal/results/postgres.go:104-128 | one conditional update, and which of written, already completed or not found is answered |
| ConsumerState.WithDefaults | internal/consumer/consumer.go:78-97 | positive parameters are kept, the others get 90 percent, 1000 messages, one second and five minutes |
| ConsumerState.QuorumIsAPercentage | internal/consumer/consumer.go:311-317 | the rounded-up threshold is the exact percentage test |
| ConsumerState.ClaimedExactlyWhen | internal/consumer/consumer.go:291-324 | a check claims a poll exactly when it is known, unclaimed, past grace, and past the hard deadline, or done by the percentage of seen workers, or stale |
| ConsumerState.RegisterInFull | internal/consumer/consumer.go:171-216 | what registering a message changes of its own poll, of every other poll and of the queues, field by field |
| ConsumerState.MissingAtQuorum | internal/consumer/consumer.go:309-317 | at a quorum at most the waived share of seen workers is missing, and none when less than one worker is waived |
| ConsumerState.NoQuorumAboveHundred | internal/consumer/consumer.go:309-317 | a percentage above one hundred is never reached |
| ConsumerRuns.ApplyKeepsInv | internal/consumer/consumer.go:158-463 | every step of any goroutine, every failure and every crash keeps the consumer's invariant |
| ConsumerRuns.OnlyFlushedPollsAreCommitted | internal/consumer/consumer.go:403-431 | no message of a poll without a successful flush is below the position a restart reads from |
| ConsumerRuns.ReadIsDequeuedThenPending | internal/consumer/consumer.go:171-216 | what was read of a partition is what was dequeued, all settled, followed by exactly the pending entries, whose polls are live |
| ConsumerRuns.FlushOwnsItsState | internal/consumer/consumer.go:291-353 | at most one flush per poll is in flight, and its state is neither deleted, replaced nor committed while it runs |
| ConsumerRuns.FlagsTellTheProtocol | internal/consumer/consumer.go:326-353 | committed implies flushed and a successful flush; flushed without committed means that a flush is running |
| ConsumerRuns.StoredOnceForGood | internal/consumer/consumer.go:338-389 | each state flushes successfully at most once; per poll at most one write takes effect over all lives of the process, and the stored result never changes afterwards |
| ConsumerStored.StepKeepsStored | internal/consumer/consumer.go:326-353 | every further step of a run keeps: what a flush can still write, and what is written, was built from exactly the messages read when it was claimed |
| ConsumerStored.StoredIsWhatWasRead | internal/consumer/consumer.go:326-389 | whichever flush wrote it, a stored result is that of the messages that had been read when some check of the run claimed it, and its total the number of their distinct voters |
| ConsumerRuns.TallyDependsOnlyOnTheLog | internal/consumer/consumer.go:185-215 | the tally of a poll not yet flushed is the fold of its messages read so far, whatever happened in between |
| ConsumerRuns.ReplayRebuildsTheTally | internal/consumer/consumer.go:185-215 | crash at any point and read the partition again as far as before: the same tally is rebuilt |
| ConsumerCheck.TryCommitStopsAtUncommitted | internal/consumer/consumer.go:405-440 | after tryCommit the queue is empty or headed by a message that may not be committed |
| ConsumerSteps.HandleMessageIsARun | internal/consumer/consumer.go:157-223 | handleMessage, with nothing in between, is a run of its goroutine: register, look up the end time, check, commit |
| ConsumerSteps.CheckAllIsARun | internal/consumer/consumer.go:263-287 | checkAllReady, with nothing in between, is a run of its goroutine |
| ConsumerSteps.EnsureEndsAtIsARun | internal/consumer/consumer.go:226-260 | one lookup, unless the end time is known or the poll is not |
| ConsumerSteps.CheckPollIsARun | internal/consumer/consumer.go:291-353 | a claimed poll is flushed and confirmed, or given up |
| ConsumerSteps.TryCommitIsARun | internal/consumer/consumer.go:405-440 | the committable prefix is taken and committed, and only after success are polls forgotten; after a refused commit none is |
| ConsumerSteps.CommitMovesThePosition | internal/consumer/consumer.go:424-436 | a commit moves to just behind the last real message of the cut prefix, past all of them, and nowhere if there is none |
| ConsumerSteps.LookupsLearn | internal/consumer/consumer.go:226-260 | the service is asked again exactly until it has settled the end time; outages before only put the first one's provisional deadline |
| ConsumerSteps.LookupsTouchTheEndTime | internal/consumer/consumer.go:226-260 | a lookup changes nothing but the poll's end time, and nothing at all once it is known |
| ConsumerCheck.QuietMeansConsistent | internal/consumer/consumer.go:157-463 | when no goroutine is inside a section, every flushed poll is committed and every other poll has a pending message |
| ConsumerCheck.OnePassDrains | internal/consumer/consumer.go:263-323 | past every deadline one pass flushes, commits and forgets everything, exactly when it finds a poll to flush or nothing at all |
| ConsumerCheck.FailedCommitLeavesAPoll | internal/consumer/consumer.go:405-440 | a flush that succeeds and a commit that fails lead to a quiet state whose poll no later pass drops |
| ConsumerReplay.StaleCountIsCumulative | internal/consumer/consumer.go:199-208 | over any run that keeps a poll's state its stale count grows by exactly the messages registered for other polls, in any partition, while it was unflushed; nothing resets it |
| ConsumerReplay.ReplayClaims | internal/consumer/consumer.go:291-324 | at any point of a run from empty memory, over all partitions, with the poll unclaimed so far, a check claims it exactly when the messages read, the answers and the clock suffice |
| ConsumerReplay.ReplayReadsOn | internal/consumer/consumer.go:157-324 | such a run never claims the poll exactly when at none of its checks, after the poll's messages or by the periodic pass, what was read of all partitions sufficed |
| ConsumerReplay.ReplayStoresWhatItRead | internal/consumer/consumer.go:326-353 | a claim on the way stores the results of the poll's messages read so far, which is less than the log holds exactly when a voter is not among them |
| ConsumerReplay.LateReplayStoresLess | internal/consumer/consumer.go:157-223 | with any configuration, two messages read before a crash and one read again past the hard deadline: the stored total is that of the one |
| ConsumerReplay.StoredAgainstCommitted | internal/consumer/consumer.go:326-353 | the stored total is short of the voters in committed messages exactly when, after the claim that built it, a message with a new voter was read that is committed by now |
| ConsumerReplay.CommittedButNotStored | internal/consumer/consumer.go:326-353 | a message that arrives during the flush is committed and not counted in the stored result |
| Consumers.Consumer.constructor | internal/consumer/consumer.go:74-107 | starts empty with the default parameters filled in |
| Consumers.Consumer.CountBatch | internal/consumer/consumer.go:189-195 | the vote loop is the deduplicating fold |
| Consumers.Consumer.CoolOtherPolls | internal/consumer/consumer.go:201-208 | raises the stale count of every other unflushed poll by one, and touches nothing else |
| Consumers.Consumer.RegisterBatch | internal/consumer/consumer.go:171-216 | the registering section as a whole: state, worker sets, tally, cooling, queue entry |
| Consumers.Consumer.MarkCommittable | internal/consumer/consumer.go:393-401 | queues a malformed message for commit with no poll and the zero message |
| Consumers.Consumer.EnsureEndsAt | internal/consumer/consumer.go:226-260 | learns the end time once; a missing poll or an unavailable service gets the hard timeout |
| Consumers.Consumer.ClaimFlush | internal/consumer/consumer.go:292-329 | claims exactly a ready poll and builds its results in the same section |
| Consumers.Consumer.Flush | internal/consumer/consumer.go:363-389 | succeeds exactly when some attempt is answered for an existing row, and then the row is completed; everything else is retried |
| Consumers.Consumer.FinishFlush | internal/consumer/consumer.go:338-353 | committed after success, released after failure |
| Consumers.Consumer.TakeCommittable | internal/consumer/consumer.go:406-431 | takes the longest committable prefix off the queue |
| Consumers.Consumer.CleanupCommitted | internal/consumer/consumer.go:444-463 | forgets exactly the committed polls no queue mentions |
| Consumers.Consumer.HandleMessage | internal/consumer/consumer.go:158-223 | one message: registered or marked, end time looked up, checked, its partition committed, as HandleMessageIsARun takes it |
| Consumers.Consumer.CheckAllReady | internal/consumer/consumer.go:263-287 | one pass in some order of polls and partitions, as OnePassDrains and CheckAllIsARun take it |
| Server.Api.HandleVote | internal/api/server.go:186-214 | accepted exactly when the poll is known, has the option, has an end time that is still to come, and its buffer is open; only then the vote is added; a vote that comes at the end or later, or for a poll with no end time, starts a close |
| Server.Api.RunCloser | internal/api/server.go:198-238 | a started close closes the poll it was started for and no other |
| Server.Api.Sweep | internal/api/server.go:259-271 | every known poll whose end time has come, or that has none, is closed, every other open buffer stays as it was; then exactly the drained and expired buffers go |
| Pipeline.ApplyKeepsInv | internal/api/server.go:104-111 | every step of every worker and of the consumer keeps the order from buffer through sender to log |
| Pipeline.ReadIsABeginning | internal/api/sender.go:70-134 | what the consumer has read of a worker's batches for a poll is, but for repetitions, a beginning of what its drainers sent; in their order, if no write landed late |
| Pipeline.ReadIsSentUnchanged | internal/api/server.go:104-111 | every batch read of a worker is, in poll, worker, votes and done mark, one of the first messages its drainers sent, and each of these is there |
| Pipeline.ReadVotesWereAccepted | internal/api/server.go:104-111 | every vote read, fingerprint and option, was accepted by the batch's worker |
| Pipeline.BarrierHolds | internal/consumer/consumer.go:185-198 | in every state keeping the invariant, for a worker marked done on an unflushed poll some lifetime of its buffer is closed, and every vote accepted in it and before it was read, option and all, and is in the dedup set |
| Pipeline.DoneMeansEveryVoteCounted | internal/consumer/consumer.go:185-198 | over every run: before a poll's first successful flush, a worker counted as done has closed the poll's first buffer for good with all its votes counted, and all votes it ever accepted are, if no later buffer accepted one |
| Pipeline.CountedWasAccepted | internal/consumer/consumer.go:189-195 | a fingerprint in the dedup set belongs to a vote some worker accepted |
| Pipeline.CountedAreTheAccepted | internal/consumer/consumer.go:185-198 | before the first flush, once every accepting worker is done and none accepted after a cleanup, the dedup set is exactly the voters of all accepted votes: none lost, none invented |
| Pipeline.QuorumTotalIsExact | internal/consumer/consumer.go:309-328 | a first flush on a quorum that waives less than one worker, with every accepting worker seen, carries the exact number of distinct voters among all accepted votes |
| Pipeline.QuorumCountsAreExact | internal/consumer/consumer.go:309-328 | at such a claim, if nobody voted for two options, each option has as many votes as distinct voters were accepted for it, and the options are those voted for |
| Pipeline.StoredTotalIsExact | internal/consumer/consumer.go:326-389 | if that claim's write finds the row active, the row holds that exact number from then on, whatever comes after |

## Left out

- HTTP handlers, JSON, status codes, logging, configuration and the command programs; of the handlers only the end-time gate and the watcher are here.
- JSON encoding between sender and consumer: a batch is read as it was written, or is malformed.
- The log, its client and the consumer group: partitions are append-only sequences, ownership of partitions does not move between consumers.
- The database: the conditional update is one atomic step on one row.
- Graceful shutdown: `Sender.drain`, buffers not closed at exit and batches given up on cancellation lose data by intention, so the runs have no such steps; the cancelled flush of the consumer is there.
- Real time: clock readings are integers; whether the grace period is long enough for unknown workers is not claimed.
- SHA-256, HMAC and the pooled hasher: the MAC is any function to 32 bytes. Random cookie values and `Issue` are not modelled.
- Overflow of 64-bit counters: counts are unbounded.
- Poll states of the consumer and entries of the limiter are values stored back into their maps, not heap records: no pointer to one outlives a critical section in the source, so no aliasing is lost.
- Pipeline.CountedAreTheAccepted: says, like the exact totals built on it, nothing of workers that accepted a vote after a cleanup; the end-time gate makes that rare but does not exclude it, since a handler reads the clock before it adds the vote.
- The empty poll id: a well-formed batch without one is committed at once and is excluded from the claims about polls.
- `Snapshot`, `Polls`, `Close` of the consumer, `Stats` of the sender, `size` and `count` of the limiter, client IP and fallback fingerprints: simple readers.
- Backoff times: the loops carry them, but nothing depends on how long a retry waits.
