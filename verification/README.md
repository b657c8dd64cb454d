# A Dafny model of the AstrBot plugin registry

This project models the parts of the plugin registry that are hard to get right
and proves what they promise, for all inputs, all runs or all reachable states.
`dafny verify dfyconfig.toml` checks all of it.

| modules | what they model |
|---|---|
| `Fips180`, `Bits` | SHA-256 as FIPS 180-4 defines it, in the standard's own terms |
| `Fips180Constants`, `Fips180Digits`, `Fips180Rounds` | where its constants come from, what its functions do to each binary digit, and its rounds as recurrences |
| `JsInt32`, `BrowserSha256` | the dashboard's in-place SHA-256 over JavaScript numbers, proved against `Fips180` |
| `ProofOfWork` | the leading-zero test in three languages, the server's check and both solvers |
| `TaskQueue` | envelopes, redaction, the Redis collections and the service functions run alone |
| `TaskMachine`, `TaskSafety`, `TaskResults`, `TaskTurn`, `TaskEnds`, `TaskFair`, `TaskPromises` | producers and N workers interleaved at every Redis and database operation; the invariant; what it means for a caller; one process left alone makes a turn of the service functions; every task ends, in every fair run; what the configuration promises about attempts and delays |
| `JsonText`, `JsonScanner` | RFC 8259 texts, and the scanner that digs an object out of a language model's answer |
| `RateLimiter` | the fixed-window limiter with blocks, with a ghost history of recorded failures |
| `Lifecycle`, `LifecycleSafety`, `LifecycleFlow`, `LifecyclePolls`, `LifecycleService`, `LifecycleRecords` | plugins, versions, scan results and the publish gates; the table constraints; what sequences of calls achieve; the service calls statement by statement; where the contents of the rows come from |
| `RegistryCache` | the public registry, its JSON and MD5 cache keys, and what readers are served |
| `ScanGates` | the publish gate as the server, the dashboard and the CLI compute it |
| `VirusTotal` | polling with backoff, deadline and attempt limit, in two records at once |
| `CliConfig`, `Strings` | the CLI's configuration writer and reader |
| `Instream` | ClamAV's length-prefixed stream |
| `ArtifactTree` | the file tree of a packaged artifact |

## How the model is built

- **Pure code** becomes datatypes and functions; **code that changes things step
  by step** becomes methods and classes, each proved against a function or a
  property of its inputs or old state.
- **Commit** is "keep all writes or undo all of them": a transaction is refused
  when a CHECK or the unique index of `models/version.py` fails
  (`Lifecycle.Step`). A scan has two commits, and each is its own step.
- **The queue machine** takes one step per Redis or database operation. A task
  between two operations is in a process's hand. `TaskMachine.Next` says what
  each step does, and every theorem in `TaskResults` is about
  `TaskMachine.Run`, the state after any sequence of steps.
- **Outside answers** (VirusTotal, the handlers, the clock, scan outcomes) are
  arbitrary parameters. MD5 and the canonical JSON encoder are constructors, so
  different registries have different texts and digests.
- **JavaScript numbers** are unbounded integers with `ToInt32` and `ToUint32`
  written out; no bit vectors are used. Times in the rate limiter are reals.

## What the code does that one might not expect

- A guarded rate limiter lets through at most `2 * attempts - 2` failures in any
  window (from two attempts on), one fewer than the usual fixed-window bound; from
  three attempts on this is reached. An unguarded failure can shorten a block
  (`RateLimiter.WhenABlockIsShortened`).
- A task whose handler finished and whose record says succeeded is retried when
  the heartbeat right after it fails (`TaskResults.SuccessCanBeUndone`).
- Queueing a rescan of a published version takes the plugin off the registry, and
  the scan is rolled back while a provider answers "pending"
  (`LifecycleFlow.RescanTakesLatestOffline`).
- The CLI's wait for all providers can end although a required provider has no
  result yet (`ScanGates.DoneButNotPassed`).
- An answer torn off at a closing brace is taken for a whole object when nothing stands
  in front of it (`JsonScanner.CutOffObject`).
- An object inside a code fence is altered when it contains a line break other
  than a newline, such as U+2028 inside a string (`JsonScanner.FencedObject`).
- The browser fallback hash is wrong from 2^28 - 8 bytes on
  (`BrowserSha256.PackingIsPadding`).
- The download endpoint does not look at the plugin's status. It never serves a
  disabled or deleted plugin, but one that was set back to pending after
  publishing is off the listing and still downloaded
  (`RegistryCache.DownloadsBeyondTheListing`).
- The CLI never calls a wait for all providers done when none is required,
  although the gate is then open (`ScanGates.WaitingForAllOverlooksMissing`).

## Model

| member | source | states |
|---|---|---|
| `BrowserSha256.PackingIsPadding` | dashboard/src/utils/pow.ts:54-61 | For every message below the FIPS limit, the sparse `words` array read in blocks of sixteen is the padded and parsed message of FIPS 180-4 sections 5.1.1 and 5.2.1 if and only if the message is shorter than 2^28 - 8 bytes |
| `BrowserSha256.ShortMessagesPackRight` | dashboard/src/utils/pow.ts:57-61 | Below that limit every block word is the padded one: the 0x80 byte, the zero gap and the length never collide |
| `BrowserSha256.LongMessagesPackWrong` | dashboard/src/utils/pow.ts:61 | From the limit on, the bit length is stored under a wrapped negative index, so the last block lacks it |
| `BrowserSha256.Pack` | dashboard/src/utils/pow.ts:54-61 | The in-place packing loop computes the word array that the padding lemmas speak of |
| `BrowserSha256.Add32` | dashboard/src/utils/pow.ts:133-139 | Repeated `|0` addition of any number of signed values is their sum modulo 2^32 |
| `BrowserSha256.FillSchedule` | dashboard/src/utils/pow.ts:83-90 | Reading sparse words and extending them in place gives the message schedule of section 6.2.2, step 1, for the block |
| `BrowserSha256.DoRound` | dashboard/src/utils/pow.ts:92-106 | One turn of the signed compression loop is one round of section 6.2.2, step 3, on the unsigned values |
| `BrowserSha256.Compress` | dashboard/src/utils/pow.ts:72-107 | The inner loop of 64 turns, reusing one work array, is the sixty-four rounds of the block |
| `BrowserSha256.AddState` | dashboard/src/utils/pow.ts:109-116 | The closing additions are those of section 6.2.2, step 4 |
| `BrowserSha256.WriteWords` | dashboard/src/utils/pow.ts:119-126 | The output bytes are the big-endian concatenation of the unsigned words |
| `BrowserSha256.Sha256Fallback` | dashboard/src/utils/pow.ts:53-127 | Returns the SHA-256 of FIPS 180-4 for every message shorter than 2^28 - 8 bytes, and for every message the section 6.2.2 hash of whatever blocks were packed |
| `Fips180Constants.RoundConstants` | dashboard/src/utils/pow.ts:141-150 | The sixty-four round constants are the first 32 bits of the fractional parts of the cube roots of the first sixty-four primes, as section 4.2.2 of FIPS 180-4 defines them |
| `Fips180Constants.InitialHash` | dashboard/src/utils/pow.ts:63-70 | The initial hash value is the same for the square roots of the first eight primes, as section 5.3.3 defines it |
| `Fips180Constants.FractionsAreUnique` | dashboard/src/utils/pow.ts:141-150 | A prime determines its constant, so no other table fits the definition |
| `Fips180Digits.SigmaDigits` | dashboard/src/utils/pow.ts:85-99 | Digit by digit, each of the four sigma functions adds up the three digits at the distances of section 4.1.2, counted around the word for a rotation and zero past its end for a shift |
| `Fips180Digits.ChoiceAndMajority` | dashboard/src/utils/pow.ts:93-98 | Ch takes the digit of y where x has a one and that of z elsewhere; Maj is one exactly where two of three are |
| `Fips180Digits.PaddingMeans` | dashboard/src/utils/pow.ts:54-61 | The padded message is the message, 0x80, zeros and the 64-bit length in bits, in the least number of 64-byte blocks |
| `Fips180Digits.DigestMeans` | dashboard/src/utils/pow.ts:119-126 | Reading the digest as big-endian words gives the eight words of the hash value in order |
| `Fips180Rounds.RoundsAreRecurrences` | dashboard/src/utils/pow.ts:72-107 | The sixty-four rounds over eight shifting registers are two recurrences that look four values back |
| `ProofOfWork.TsLeadingZeroBits` | dashboard/src/utils/pow.ts:35-51 | The signed mask loop counts the leading zero bits of any byte string |
| `ProofOfWork.GoLeadingZeroBits` | acprctl/main.go:943-959 | The byte mask loop counts the same bits |
| `ProofOfWork.PyLeadingZeroBits` | registry/src/astrbot_registry/services/registration_service.py:85-92 | The bit-length form counts the same bits |
| `ProofOfWork.CountIsBound` | registry/src/astrbot_registry/services/registration_service.py:80-92 | For every byte string of n bytes and every d up to 8n, the count is at least d if and only if the big-endian value is below 2^(8n - d) |
| `ProofOfWork.DecimalIsANumeral` | dashboard/src/utils/pow.ts:12 | A nonce is written as its decimal numeral: the digits stand for it, and there is no leading zero |
| `ProofOfWork.MessageNamesAll` | registry/src/astrbot_registry/services/registration_service.py:81 | The hashed message is challenge, salt and nonce in this order, with one colon between each two |
| `ProofOfWork.TriesDiffer` | dashboard/src/utils/pow.ts:11-17 | Different nonces of one challenge are different messages, so no candidate is tried twice |
| `ProofOfWork.PowIsANumericBound` | registry/src/astrbot_registry/services/registration_service.py:80-82 | The server accepts a nonce if and only if the digest, as a number, is below 2^(256 - difficulty) |
| `ProofOfWork.ServerVerifyPow` | registry/src/astrbot_registry/services/registration_service.py:80-82 | The server's check, with its own bit count, is the predicate the solvers aim at |
| `ProofOfWork.GoRegisterPowValid` | acprctl/main.go:938-941 | The command line's check, with its own bit count, comes to the server's verdict on every nonce |
| `ProofOfWork.BrowserDigest` | dashboard/src/utils/pow.ts:27-33 | Both branches of the browser hash are SHA-256 as long as the fallback packs right |
| `ProofOfWork.SolveRegistrationPow` | dashboard/src/utils/pow.ts:1-25 | A returned nonce is accepted by the server check and is the least one; a timeout means none of the nonces tried was acceptable |
| `ProofOfWork.GoSolverIsSound` | acprctl/main.go:904-936 | Under every scheduling of any number of goroutines no nonce is claimed twice or skipped, the delivered nonce is valid, and a valid nonce once tested is never lost |
| `ProofOfWork.FirstFindStands` | acprctl/main.go:904-936 | The first delivered nonce is never replaced, and a goroutine that found a valid nonce claims no more |
| `ProofOfWork.DeliveredNonceIsAccepted` | acprctl/main.go:904-941 | Whatever the channel delivers passes the server's check |
| `TaskQueue.RedactionRemovesOnlyTheToken` | registry/src/astrbot_registry/services/task_queue.py:88-97 | Neither the dead-letter form nor the stored payload holds the token; every other field survives; the mark in its place is set for the dead letter whenever there was a token and for the record exactly when it was not empty |
| `TaskQueue.ZAddKeepsOrder` | registry/src/astrbot_registry/services/task_queue.py:100-104 | Adding to the delayed set keeps it in score order with distinct members and moves a member already there |
| `TaskQueue.DueIsAPrefix` | registry/src/astrbot_registry/services/task_queue.py:108-109 | The range query returns exactly the earliest due members, up to the limit, in order |
| `TaskQueue.Queues.PushTask` | registry/src/astrbot_registry/services/task_queue.py:100-105 | A positive delay goes to the delayed set at now + delay, anything else to the end of the main queue |
| `TaskQueue.Queues.PromoteDueTasks` | registry/src/astrbot_registry/services/task_queue.py:108-116 | Alone, promotion moves the due prefix to the main queue in order and nothing else |
| `TaskQueue.Queues.RequeueTask` | registry/src/astrbot_registry/services/task_queue.py:119-149 | Retries exactly when the error is retryable and the attempts, with this one, are below the task's own limit or, where that is zero, the runtime one; the rest is what RequeuedGoesOnePlace says |
| `TaskQueue.Queues.RunTurn` | registry/src/astrbot_registry/worker.py:106-133 | An undisturbed turn of the worker: due tasks join the queue, its head is handled, and a failure sends it back or buries it |
| `TaskQueue.RequeuedGoesOnePlace` | registry/src/astrbot_registry/services/task_queue.py:119-149 | A failed task goes to exactly one place: back, under the time its delay is over, with its payload and one more attempt while its own limit, or where that is zero the runtime one, allows and the error is retryable; else to the dead list without its token; its record says which and why, and no other record changes |
| `TaskTurn.UndisturbedTurn` | registry/src/astrbot_registry/worker.py:106-133 | When nobody interferes, the single operations of one process, with a failure from any of them, add up to exactly one turn of the service functions |
| `TaskTurn.ReachableTurn` | registry/src/astrbot_registry/worker.py:106-133 | The same from every reachable state of the interleaved machine |
| `TaskTurn.RunKeepsOrder` | registry/src/astrbot_registry/services/task_queue.py:100-116 | Under every interleaving the delayed set stays in score order without duplicates |
| `TaskMachine.InHandsSplit` | registry/src/astrbot_registry/worker.py:106-133 | A process that changes what it holds changes nobody else's holdings |
| `TaskSafety.StepKeeps` | registry/src/astrbot_registry/worker.py:109-133 | Every single Redis or database operation of every process keeps the whole invariant, and a task that changes its holder comes strictly closer to its end |
| `TaskSafety.TakeDelayedKeeps` | registry/src/astrbot_registry/services/task_queue.py:111-114 | Two promoters of one due task: only the one whose removal succeeded carries it, so it is neither duplicated nor lost |
| `TaskSafety.RequeueKeeps` | registry/src/astrbot_registry/services/task_queue.py:119-149 | Raising the attempt count and marking the record keeps both in agreement, whether the task retries or dies |
| `TaskSafety.RunKeeps` | registry/src/astrbot_registry/worker.py:97-134 | The invariant holds after every interleaving of any number of producers and workers |
| `TaskResults.EveryTaskHasOneHolder` | registry/src/astrbot_registry/services/task_queue.py:100-149 | In every reachable state each issued task is in exactly one of main queue, delayed set, dead list, done, or one process's hand, exactly once, and nothing else is anywhere |
| `TaskResults.HoldingIsInItsPlace` | registry/src/astrbot_registry/services/task_queue.py:100-149 | A holding names a place if and only if the task really is there |
| `TaskResults.HandledAtMostItsLimit` | registry/src/astrbot_registry/worker.py:122 | However processes interleave, a task is handled at most max(1, L) times, where L is the runtime setting or, when that is zero, the static one |
| `TaskResults.RecordsAgreeWithPlaces` | registry/src/astrbot_registry/services/task_observability.py:78-136 | For every task whose holder is not a worker between two operations, whatever the other processes do, the record says dead, succeeded or running exactly when the task is dead-lettered, done or in a worker's hand, and its attempts are the envelope's |
| `TaskResults.PayloadsAreKept` | registry/src/astrbot_registry/services/task_queue.py:88-97 | Every live task carries the payload it was issued with; the dead list and the records never show the token |
| `TaskResults.MovesAreBounded` | registry/src/astrbot_registry/services/task_queue.py:119-149 | In no run does a task change its holder more than 10 * max(1, L) + 2 times, for the same L |
| `TaskResults.HandsAreNeverStuck` | registry/src/astrbot_registry/worker.py:106-133 | The next operation of a process that holds a task moves the task on, whether it fails or not |
| `TaskFair.EveryFairRunEnds` | registry/src/astrbot_registry/worker.py:106-133 | From every reachable state, every schedule in which each process keeps getting its turn and the clock passes every bound brings every issued task to the done or the dead tasks, with a record that says so, whatever the order of the processes and whatever failures they meet |
| `TaskFair.RoundRobinIsFair` | registry/src/astrbot_registry/worker.py:106-133 | Such schedules exist: taking turns in a circle with a clock that counts is one |
| `TaskEnds.EveryTaskEnds` | registry/src/astrbot_registry/worker.py:106-133 | From every reachable state with a process and at any time, a scheduler that looks at the state alone and enqueues nothing brings every issued task to the done or the dead tasks, with a record that says so, whichever failures its operations meet |
| `TaskEnds.EveryTaskMoves` | registry/src/astrbot_registry/worker.py:106-133 | In particular every task that is neither done nor dead, in the main queue, the delayed set or a hand, changes its holder in such a continuation |
| `TaskEnds.ScheduledObeys` | registry/src/astrbot_registry/worker.py:106-133 | That continuation enqueues nothing, meets exactly the given failures, and its times do not run backwards |
| `TaskEnds.StepTakesRank` | registry/src/astrbot_registry/services/task_queue.py:100-149 | A step that issues nothing never adds to the attempts and operations left over all tasks, and takes from them whenever a task changes its holder |
| `TaskResults.SuccessCanBeUndone` | registry/src/astrbot_registry/worker.py:122-133 | If the heartbeat after success fails while attempts remain, the finished task is back in a queue, not among the done, and its record goes from succeeded to retrying |
| `TaskResults.LimitIsConfigured` | registry/src/astrbot_registry/services/task_queue.py:25-44 | Every task, wherever it is, carries the configured limit |
| `TaskPromises.IssuedAsConfigured` | registry/src/astrbot_registry/services/task_queue.py:47-81 | In every reachable state enqueueing makes the envelope with the configured limit and no attempts, and a record that says queued or delayed, with the payload but for the token |
| `TaskPromises.FailureIsRetriedOrBuried` | registry/src/astrbot_registry/services/task_queue.py:119-149 | In every reachable state a failed task is retried if and only if the error is retryable and its attempts, with this one, are below the configured number; attempts, error message and record follow |
| `TaskPromises.RecordsFollowMarks` | registry/src/astrbot_registry/services/task_observability.py:78-136 | After its issue a record changes only by the marks of the process holding its task: running with its attempts and no error, succeeded, or retrying or dead with one more attempt and the message |
| `TaskPromises.HandlingsAreCounted` | registry/src/astrbot_registry/worker.py:121-122 | A handling is counted exactly when the process passes the heartbeat before the handler |
| `TaskPromises.HandedIn` | registry/src/astrbot_registry/services/task_queue.py:100-105 | From every reachable state a task handed in without delay is the last of the main queue, and one with delay d is in the delayed set under now + d, in place of an older entry of it |
| `TaskPromises.NotBeforeItsTime` | registry/src/astrbot_registry/services/task_queue.py:100-116 | A task handed in with delay d at time t stays in the delayed set and on no process's list, whatever all processes do, until a promotion begins at t + d or later |
| `TaskPromises.DueIsListed` | registry/src/astrbot_registry/services/task_queue.py:108-109 | A promotion lists exactly those of the first hundred delayed tasks, in order of their times, whose time has come |
| `TaskPromises.ListedIsTaken` | registry/src/astrbot_registry/services/task_queue.py:111-115 | A listed task is carried if and only if it is still delayed, and then its entry is gone and no other |
| `TaskPromises.TasksMoveInOrder` | registry/src/astrbot_registry/worker.py:106-133 | The main queue is first in, first out; done and dead tasks are set aside in order, the dead ones without the token |
| `JsonScanner.ExtractJsonObject` | registry/src/astrbot_registry/services/scan_providers/llm_agent.py:344-383 | The loop over depth, string and escape flags computes the specified extraction |
| `JsonScanner.ValueScan` | registry/src/astrbot_registry/services/scan_providers/llm_agent.py:360-381 | Scanning any RFC 8259 value, at any nesting, returns to the depth it started at, outside a string |
| `JsonScanner.ScannedIsObject` | registry/src/astrbot_registry/services/scan_providers/llm_agent.py:356-381 | When the first brace opens a well-formed object, the scan returns exactly that object, whatever follows |
| `JsonScanner.ExtractIsTransparent` | registry/src/astrbot_registry/services/scan_providers/llm_agent.py:344-383 | For every object and every prefix without a brace that does not begin with a fence: extraction returns the object if and only if the prefix is not blank, or the suffix is blank, or the stripped suffix does not end in a brace |
| `JsonScanner.FencedObject` | registry/src/astrbot_registry/services/scan_providers/llm_agent.py:346-354 | An object in a code fence comes back unchanged if and only if its only line breaks are plain newlines |
| `JsonScanner.IndentedFence` | registry/src/astrbot_registry/services/scan_providers/llm_agent.py:346-352 | Blanks before and after a fenced object without other line breaks do no harm |
| `JsonScanner.UnclosedFence` | registry/src/astrbot_registry/services/scan_providers/llm_agent.py:346-352 | When the last line is no fence only the opening line goes, and the object comes back under the same condition |
| `JsonScanner.NoObjectExactly` | registry/src/astrbot_registry/services/scan_providers/llm_agent.py:356-358 | A text without an opening brace is answered with "no object", and unless it begins with a fence no other text is |
| `JsonScanner.CutOffObject` | registry/src/astrbot_registry/services/scan_providers/llm_agent.py:353-383 | An object cut off anywhere, behind any prefix without a brace, is reported incomplete, except when nothing stands in front and it breaks off at a closing brace: then the torn text comes back as an object |
| `JsonScanner.CutOutIsBraced` | registry/src/astrbot_registry/services/scan_providers/llm_agent.py:356-381 | Whatever is cut out runs from the first opening brace of the text to a closing one |
| `JsonScanner.ScannerLaws` | registry/src/astrbot_registry/services/scan_providers/llm_agent.py:364-381 | A backslash protects the next character inside and outside of strings; in a string only a quote counts, elsewhere only quotes and braces |
| `JsonScanner.JoinOfSplit` | registry/src/astrbot_registry/services/scan_providers/llm_agent.py:347-352 | Splitting into lines and joining with newlines restores a non-empty text that does not end in a line break exactly when it has no other kind of line break |
| `RateLimiter.SlidingWindow` | registry/src/astrbot_registry/services/security_service.py:83-124 | In any guarded run with block >= window, every half-open interval of length window holds at most max(1, 2 * attempts - 2) recorded failures, one fewer than the 2 * attempts - 1 a fixed window suggests |
| `RateLimiter.SlidingWindowIsTight` | registry/src/astrbot_registry/services/security_service.py:111-120 | From three attempts on, a guarded history with that many failures in one window exists |
| `RateLimiter.InMemoryRateLimiter.Replay` | registry/src/astrbot_registry/api/auth.py:63-72 | Every history that follows the windows and waits out the blocks is what guarded attempts at its times produce on a fresh key, none of them refused |
| `RateLimiter.ReachTheBound` | registry/src/astrbot_registry/services/security_service.py:83-124 | A new limiter used through the guard alone records the worst case and reaches the bound |
| `RateLimiter.InMemoryRateLimiter.BlockedExactly` | registry/src/astrbot_registry/services/security_service.py:99-120 | A guarded key of the limiter is blocked at a time exactly when a failure that reached the limit lies less than a block before it: no block is cut short and each one ends |
| `RateLimiter.WhenABlockIsShortened` | registry/src/astrbot_registry/services/security_service.py:111-120 | A failure recorded during a block shortens it if and only if the window has run out and one failure alone does not block |
| `RateLimiter.StrayFailureUnblocks` | registry/src/astrbot_registry/services/security_service.py:111-120 | A concrete unguarded failure that frees a blocked key |
| `RateLimiter.InMemoryRateLimiter.RetryAfter` | registry/src/astrbot_registry/services/security_service.py:99-109 | Zero exactly when the key is free; otherwise the least whole number of seconds after which it is; no other key changes |
| `RateLimiter.InMemoryRateLimiter.RecordFailure` | registry/src/astrbot_registry/services/security_service.py:111-120 | Appends one failure to the key's history and keeps state and history in agreement |
| `RateLimiter.InMemoryRateLimiter.RecordSuccess` | registry/src/astrbot_registry/services/security_service.py:122-124 | Forgets exactly this key |
| `RateLimiter.InMemoryRateLimiter.GuardedAttempt` | registry/src/astrbot_registry/api/auth.py:63-72 | Check and record as one step: refused attempts change nothing, accepted ones are recorded, and the key stays guarded |
| `RateLimiter.InMemoryRateLimiter.FailuresAreBounded` | registry/src/astrbot_registry/services/security_service.py:83-124 | The sliding-window bound for every key of a limiter used only through the guard |
| `LifecycleSafety.RunKeeps` | registry/src/astrbot_registry/services/plugin_service.py:156-411 | After every sequence of service calls with any arguments: at most one latest version per plugin, latest versions active and built, scanning versions have artifacts, hidden plugins have no latest version, both scan tables agree |
| `LifecycleSafety.LatestIsSound` | registry/src/astrbot_registry/models/version.py:44-57 | A latest version is the only one of its plugin, is active, built and downloadable, and its plugin is neither disabled nor deleted |
| `LifecycleSafety.ScanningMeansBuilt` | registry/src/astrbot_registry/services/scan_service.py:273-277 | A version whose build status is scanning or success has key and URL, although the constraint only asks it of success |
| `LifecycleSafety.ChecksRefuseExactly` | registry/src/astrbot_registry/services/scan_service.py:226-227 | In every reachable database and for every call: the constraints refuse the commit if and only if a pending scan or poll outcome, or a failed build, is written to a latest version with an artifact, or an uploaded version lacks one |
| `LifecycleSafety.PromotionsAreFine` | registry/src/astrbot_registry/services/plugin_service.py:309-411 | Publishing and set-latest keep all constraints by themselves |
| `LifecycleSafety.MarkedScansAreFine` | registry/src/astrbot_registry/services/scan_service.py:246-352 | Marking scans pending or skipped keeps all constraints by itself |
| `LifecycleSafety.PendingRescanOfLatestIsLost` | registry/src/astrbot_registry/services/scan_service.py:226-228 | Rescanning a latest version is rolled back whole while any outcome is pending |
| `LifecycleSafety.BothRepresentationsAgree` | registry/src/astrbot_registry/services/scan_service.py:34-65 | In every reachable database, for virustotal and llm_agent the old columns equal the provider row when there is one and say pending otherwise, so the gate decides the same from either |
| `LifecycleSafety.ReadersAgree` | registry/src/astrbot_registry/services/plugin_service.py:76-92 | The download query never meets two rows and names the same version as the listing's _get_latest, in whatever order each reads the rows, although their build tests differ |
| `LifecycleSafety.HiddenPluginsServeNothing` | registry/src/astrbot_registry/api/public.py:65-74 | The download endpoint, which ignores the plugin's status, never serves a disabled or deleted plugin |
| `RegistryCache.DownloadIsServed` | registry/src/astrbot_registry/services/plugin_service.py:76-92 | The download endpoint names a version exactly when it is the plugin's servable latest one |
| `RegistryCache.DownloadsBeyondTheListing` | registry/src/astrbot_registry/api/public.py:65-74 | In every reachable database the download endpoint serves a plugin the listing does not show if and only if that plugin's status is pending and it has a servable latest version |
| `RegistryCache.WithdrawnIsServed` | registry/src/astrbot_registry/services/plugin_service.py:156-181 | A concrete run that ends so: create, upload, publish, set the status back to pending |
| `LifecycleFlow.PublishedIsServed` | registry/src/astrbot_registry/services/plugin_service.py:359-411 | A successful publish makes the version the one the listing and the download endpoint name, activates the plugin, unmarks its other versions and touches no other plugin |
| `LifecycleFlow.QueuedScanBlocks` | registry/src/astrbot_registry/services/scan_service.py:246-264 | From every reachable database: once a required provider is marked pending, publishing, activating and set-latest all refuse the version |
| `LifecycleFlow.CleanScanOpensTheGate` | registry/src/astrbot_registry/services/scan_service.py:213-228 | A scan of a packaged version that covers the required providers and passes all of them makes both gates pass |
| `LifecycleFlow.RescanTakesLatestOffline` | registry/src/astrbot_registry/services/scan_service.py:246-277 | Queueing a rescan of a published version takes the plugin off the listing and the download endpoint, and an answer with a pending outcome cannot be stored, so it stays off |
| `LifecycleService.Session.SetPluginStatus` | registry/src/astrbot_registry/services/plugin_service.py:156-181 | Done exactly when the plugin exists; then only its status and review change: a verdict that was given is stored, otherwise a pending review becomes approved on activation and rejected on disabling and any other stays; disabling or deleting takes off every latest mark of the plugin and nothing else |
| `LifecycleService.Session.SetVersionStatus` | registry/src/astrbot_registry/services/plugin_service.py:275-306 | Done exactly when the version exists and, for activation, passes both gates; an activated version ends built, any other loses its latest mark, and no other row changes |
| `LifecycleService.Session.SetLatestVersion` | registry/src/astrbot_registry/services/plugin_service.py:309-356 | Done exactly when plugin and version are active and both gates pass; then this is the plugin's only latest version and built, its other versions lose the mark, and nothing else changes |
| `LifecycleService.Session.PublishPluginVersion` | registry/src/astrbot_registry/services/plugin_service.py:359-411 | Done exactly when the verdict allows it and both gates pass; then the plugin is active with that review, this is its only latest version, active and built, and the human result says approved or skipped |
| `LifecycleService.Session.StoreResults` | registry/src/astrbot_registry/services/scan_service.py:215-221 | The loop over outcomes writes both representations of each |
| `LifecycleService.Session.FinishScan` | registry/src/astrbot_registry/services/scan_service.py:213-228 | Done unless a pending outcome meets a latest version with an artifact; then both representations hold each provider's last outcome, providers without one are left alone, and a packaged version is scanning or built by whether an outcome is pending |
| `LifecycleService.Session.MarkScanPending` | registry/src/astrbot_registry/services/scan_service.py:246-264 | Never refused for an existing version; exactly the selected providers say queued in both representations, and a packaged version is scanning unless it is active and latest |
| `LifecycleService.Session.MarkScanSkipped` | registry/src/astrbot_registry/services/scan_service.py:316-346 | Never refused for an existing version; exactly the selected providers say skipped with the given verdict in both representations, and a packaged version ends built |
| `LifecycleService.Session.FailBuild` | registry/src/astrbot_registry/services/build_service.py:179-184 | Refused exactly for a latest version, and then nothing changed; otherwise only this version's build status is failed; the invariant is kept |
| `LifecycleSafety.WritesAreRecorded` | registry/src/astrbot_registry/services/scan_service.py:213-221 | Of any list of outcomes the last one of each provider ends up in both representations; nothing else in the row changes |
| `LifecycleRecords.CreatingAndDeleting` | registry/src/astrbot_registry/services/plugin_service.py:95-251 | In every reachable database: what creating and updating plugins, creating versions and deleting either leaves in the rows, and when it is refused |
| `LifecycleRecords.BuildingAndScanning` | registry/src/astrbot_registry/services/plugin_service.py:254-272 | In every reachable database a finished build stores the key and URL it was given and a success; an early scanning mark or a poll outcome changes only results and build status, and is refused exactly as stated |
| `LifecycleRecords.FirstDecisionStands` | registry/src/astrbot_registry/services/plugin_service.py:156-181 | From every reachable database, for every sequence of status changes without a verdict: a pending review is decided by the first change to active or disabled, approved or rejected, and no later one revises it |
| `LifecycleRecords.ActivationApprovesUnlessDisabledFirst` | registry/src/astrbot_registry/services/plugin_service.py:165-171 | A new plugin is approved by activating it, and stays rejected when it was disabled first |
| `LifecycleRecords.ArtifactsAreAsGiven` | registry/src/astrbot_registry/services/plugin_service.py:216-272 | In every reachable database the key and URL of a version are those its last upload or finished build named, under that plugin |
| `LifecycleRecords.ResultsAreReported` | registry/src/astrbot_registry/services/scan_service.py:34-65 | In every reachable database each result the gates read was reported for that version and provider by a scan, a poll, or a queued or skipped mark; otherwise it says pending |
| `LifecycleRecords.GateNeedsReports` | registry/src/astrbot_registry/services/scan_service.py:121-141 | The gate passes only versions for which every required provider was reported as a real pass or skipped |
| `RegistryCache.Redis.GetLatest` | registry/src/astrbot_registry/services/registry_service.py:108-121 | The loop returns the first servable latest version in row order |
| `RegistryCache.Redis.GenerateRegistryJson` | registry/src/astrbot_registry/services/registry_service.py:21-47 | Answers the cached text, or one entry for each active plugin with a servable latest version, and stores it |
| `RegistryCache.Redis.GetRegistryMd5` | registry/src/astrbot_registry/services/registry_service.py:50-64 | Answers the cached digest, or the digest of what the JSON read answers |
| `RegistryCache.Redis.RefreshCache` | registry/src/astrbot_registry/services/registry_service.py:80-86 | Leaves both keys equal to a fresh generation |
| `RegistryCache.QuietCallsChangeNothingServed` | registry/src/astrbot_registry/services/build_service.py:179-184 | The two commits that no refresh follows, a failed build and the early scanning mark, change nothing that is served |
| `RegistryCache.ServedIsCurrent` | registry/src/astrbot_registry/api/public.py:30-54 | After any mix of service calls, reads and independent expiries, the served registry is what the database says, and the served MD5 and ETag are the digest of exactly that |
| `RegistryCache.RegistrySays` | registry/src/astrbot_registry/services/registry_service.py:108-153 | After any history the served registry lists a plugin if and only if it is active with a latest, active, built version whose required scans are all clean; the entry names the version the download endpoint finds, its stored URL, and for exactly the required providers the stored verdict, message and mode |
| `RegistryCache.ListedIsGivenAndReported` | registry/src/astrbot_registry/services/registry_service.py:124-153 | The listed URL is the one the last upload or build of that version gave, and every required result was reported clean or skipped |
| `RegistryCache.ReadsAreCached` | registry/src/astrbot_registry/services/registry_service.py:21-64 | What a read answers is kept under its key, and the next read answers it from there |
| `RegistryCache.CallsRefresh` | registry/src/astrbot_registry/services/registry_service.py:80-86 | A commit other than the two quiet ones leaves both keys fresh; a quiet or refused call leaves the cache alone |
| `ScanGates.DashboardAgreesWithServer` | dashboard/src/composables/use-plugin-actions.ts:29-40 | For every version and list of known providers, canActivateVersion on the served summary is ok if and only if the server's build and scan gates both pass |
| `ScanGates.NoBlockersMeansSetLatest` | registry/src/astrbot_registry/services/plugin_service.py:309-345 | For every plugin and version, no blockers in the dashboard if and only if the server would not refuse to make the version latest |
| `ScanGates.GetVersionBlockers` | dashboard/src/composables/use-plugin-actions.ts:4-27 | The list is empty exactly when the options' statuses and canActivateVersion hold, and each blocker is listed exactly for its own reason |
| `ScanGates.RequiredResultsServed` | dashboard/src/utils/scans.ts:177-187 | What the dashboard reads back for each required provider is what the server decided on |
| `ScanGates.WithoutAListAllMustPass` | dashboard/src/composables/use-plugin-actions.ts:29-40 | For a summary that names no required providers, activation is offered exactly when it is built and every result in it is skipped or a real pass |
| `ScanGates.ScanProvidersDone` | acprctl/main.go:2045-2078 | True exactly when the named providers all passed, or, with none named, when some result is there and all results there pass; for named providers the first one that did not pass decides between waiting and failing |
| `ScanGates.VerdictsMean` | acprctl/main.go:2045-2078 | The wait is done when all named providers are skipped or really passed, and fails exactly when the first that is not so ended in an error or a real failure |
| `ScanGates.ResolvedScanProviders` | acprctl/main.go:2087-2103 | The providers named, or else exactly those with a result in the summary |
| `ScanGates.CliAgreesWithServer` | acprctl/main.go:2045-2078 | For every non-empty list of required providers, scanProvidersDone answers true exactly when the server's gate passes for them |
| `ScanGates.WaitingForAllOverlooksMissing` | acprctl/main.go:2087-2103 | Waiting for all is done exactly when some required provider has a result and every result there passes; it disagrees with the gate if and only if nothing is required, or a required result is missing while those there pass |
| `ScanGates.DoneButNotPassed` | acprctl/main.go:2045-2078 | A reachable database, an upload scanned by one of two required providers, that the CLI reports as done and the server refuses to publish |
| `VirusTotal.DelaysGrowToTheCeiling` | registry/src/astrbot_registry/services/scan_providers/virustotal.py:175-178 | Delays start at the interval, at least one second, never shrink, and each is twice the one before it, up to the configured maximum or the first delay |
| `VirusTotal.DelaysSumGeometrically` | registry/src/astrbot_registry/services/scan_providers/virustotal.py:175-178 | While the ceiling does not cut in, the first k delays add up to base * (2^k - 1) |
| `VirusTotal.Poller.PollAnalysis` | registry/src/astrbot_registry/services/scan_service.py:517-604 | The poll step on both records, and a follow-up task exactly when VirusTotal was asked and the result is still pending |
| `VirusTotal.Poller.CompleteOutcome` | registry/src/astrbot_registry/services/scan_service.py:403-426 | Both records take the outcome's verdict; a final one plans no further poll, clears the old columns' tracking, and no poll that comes later, at any time and with any answer, changes anything |
| `VirusTotal.PollingStaysInBounds` | registry/src/astrbot_registry/services/scan_service.py:517-604 | For one submission and any number of poll tasks at any times: the deadline never moves, no next poll is planned after it, VirusTotal is never asked at or after it, and is asked at most max(1, configured) times in all |
| `VirusTotal.TerminalStays` | registry/src/astrbot_registry/services/scan_service.py:520-523 | No late poll changes a terminal result |
| `VirusTotal.PollingEnds` | registry/src/astrbot_registry/services/scan_service.py:550-567 | With as many polls as the limit allows, or one at the deadline, the result is terminal |
| `VirusTotal.BackoffIsRespected` | registry/src/astrbot_registry/services/scan_service.py:558-584 | In one chain of polls that never runs early, up to and including the one with the final answer, poll k + 1 comes no earlier than the first k + 1 delays after the upload, or the deadline |
| `VirusTotal.FirstAnswerDecides` | registry/src/astrbot_registry/services/scan_service.py:517-604 | For one submission and any polls: the result is pending exactly while every poll came in time, found no answer and left another question; the first other poll decides it, and both records say: skipped when switched off or without a key, a real verdict when VirusTotal had finished, else an error that does not pass |
| `VirusTotal.RealResultsAreAnswers` | registry/src/astrbot_registry/services/scan_providers/virustotal.py:241-252 | A real pass in either record means that VirusTotal, asked before the deadline, counted nothing malicious or suspicious; a real failure means that it counted something |
| `VirusTotal.PollCloses` | registry/src/astrbot_registry/services/scan_service.py:517-604 | What the two records keep of the polling when it ends |
| `VirusTotal.WhatIsPolled` | registry/src/astrbot_registry/services/scan_service.py:520-535 | On any two records a poll does nothing unless one names an analysis and the result is pending, the newer record counting first; in time it asks once and stores the answer in both |
| `LifecyclePolls.PollsAreNeverRefused` | registry/src/astrbot_registry/services/scan_service.py:586-592 | While the required providers stay the same, a version with a scan of theirs under way is not a latest one, so the constraints never refuse what its poll writes |
| `CliConfig.WriteConfig` | acprctl/main.go:437-452 | The loop writes one line for each known key that is set, in order |
| `CliConfig.ReadConfig` | acprctl/main.go:403-435 | The line loop, with its comment, missing-colon and over-long-line cases |
| `CliConfig.LineWithoutColon` | acprctl/main.go:414-421 | Blank lines and comments say nothing; any other line without a colon fails the reading |
| `CliConfig.LineWithColon` | acprctl/main.go:418-428 | The first colon divides key and value, without the blanks around both and the quotes around the value; a line without a key sets nothing |
| `CliConfig.WrittenScalar` | acprctl/main.go:454-463 | A value is quoted, with its quotes escaped, exactly when it is empty, has a line break or a number sign, or a space at an end |
| `CliConfig.FaithfulReadsBack` | acprctl/main.go:454-463 | A value without line breaks reads back as written if and only if its ends are no quotes and, unless it is written quoted, no blanks; a quoted one must hold no double quote |
| `CliConfig.ReadWritten` | acprctl/main.go:403-463 | Reading a written file adds exactly the written keys, each with its value read back, or fails exactly when a line has 65536 bytes or more |
| `CliConfig.RoundTrip` | acprctl/main.go:403-463 | For every map: reading what was written gives the map back if and only if all keys are among the eight, all values are faithful and all lines are short enough |
| `Instream.SendInstream` | registry/src/astrbot_registry/services/scan_providers/clamav.py:88-98 | Sends the command and frames that decode to the file's chunks; fails exactly when a chunk's length does not fit four bytes |
| `Instream.CommandIsText` | registry/src/astrbot_registry/services/scan_providers/clamav.py:91 | The command is zINSTREAM and a zero byte |
| `Instream.UnpackPack` | registry/src/astrbot_registry/services/scan_providers/clamav.py:94 | Four bytes carry a length, most significant first |
| `Instream.DeframedFrames` | registry/src/astrbot_registry/services/scan_providers/clamav.py:93-97 | Decoding the length-prefixed frames up to the zero frame gives the chunks back, whatever follows |
| `Instream.ChunksPartition` | registry/src/astrbot_registry/services/scan_providers/clamav.py:93 | Chunks join to the file, none is empty or longer than the chunk size, and only the last may be shorter |
| `Instream.RoundTrip` | registry/src/astrbot_registry/services/scan_providers/clamav.py:88-98 | The daemon decodes exactly the file, in non-empty frames no longer than a chunk |
| `ArtifactTree.NormalPaths` | registry/src/astrbot_registry/services/artifact_service.py:181-188 | An accepted path is relative, clean of empty, dot and dot-dot parts, and the join of its parts |
| `ArtifactTree.NormalizeMeans` | registry/src/astrbot_registry/services/artifact_service.py:181-188 | A name of slashes alone is skipped; one with a drive, two slashes in front or a dot-dot segment is refused; any other stands for the path of its segments that are neither empty nor a dot, or for the root |
| `ArtifactTree.BackslashesAreSlashes` | registry/src/astrbot_registry/services/artifact_service.py:182 | Backslashes separate just as slashes do |
| `ArtifactTree.LastFileMeans` | registry/src/astrbot_registry/services/artifact_service.py:81-103 | A path is shown as a file exactly when a member without a closing slash stands for it, with the size of the last such member |
| `ArtifactTree.Tree.AddParentDirs` | registry/src/astrbot_registry/services/artifact_service.py:164-171 | Adds exactly the directories above the path and overwrites nothing |
| `ArtifactTree.Tree.ReadArtifactTree` | registry/src/astrbot_registry/services/artifact_service.py:81-103 | Fails exactly on an unsafe name; otherwise lists exactly the accepted members and the directories above them, each a file exactly when a file member has its path |
| `ArtifactTree.ListingIsAncestorClosed` | registry/src/astrbot_registry/services/artifact_service.py:164-171 | Every directory above a listed entry is listed |
| `ArtifactTree.AncestorsComeFirst` | registry/src/astrbot_registry/services/artifact_service.py:104-109 | Any order sorted by the key puts every directory before everything under it, however names compare |
| `ArtifactTree.SiblingsAreGrouped` | registry/src/astrbot_registry/services/artifact_service.py:104-109 | At one depth directories come before files, and entries of one kind by their names in lower case |

## Left out

- BrowserSha256.Sha256Fallback: for messages of 2^28 - 8 bytes or more only the packing is shown wrong, since that the digest then differs is a statement about collisions of SHA-256. Byte arrays long enough to make `message.length * 8` inexact as a double are not modelled.
- ProofOfWork.SolveRegistrationPow: the clock is a number of allowed turns; progress callbacks are not modelled. Requires messages the digest is right for.
- ProofOfWork.GoSolverIsSound: the counter is unbounded, not 64 bits wide; the timeout and the error it returns are not modelled.
- TaskSafety.RunKeeps: a process crash, a Redis refusal in the middle of a queue operation and a database refusal of the retrying or dead mark are outside the machine, as the code gives no guarantee there. Configuration is fixed during a run; task ids are never issued twice.
- TaskQueue.ZAddKeepsOrder: entries with the same score keep the order of arrival, where Redis goes by their text; no statement depends on it.
- TaskQueue.Queues.RunTurn: timestamps, worker ids and durations of the record are not modelled; a handler is its outcome.
- TaskEnds.EveryTaskEnds: exhibits one scheduler; `TaskFair.EveryFairRunEnds` covers every fair schedule.
- TaskFair.EveryFairRunEnds: assumes what fairness says, that every process keeps getting its turn and the clock does not stop, and that nobody enqueues meanwhile.
- JsonScanner.ExtractIsTransparent: `json.loads` of the extracted text, and the prompt context built for the model, are not part of this model.
- RateLimiter.InMemoryRateLimiter.FailuresAreBounded: floating-point rounding of times is not modelled; the lock makes each call atomic.
- LifecycleSafety.RunKeeps: commit SHAs and their unique index, stored files, tags, translations and timestamps are left out; a commit refused for such a reason leaves the database as it was, which is a run without that call. Service calls do not interleave inside.
- LifecycleSafety.BothRepresentationsAgree: providers other than the two in the old table have no second representation.
- LifecycleService.Session.SetVersionStatus: the not-found and invalid-state errors are one answer, "not done".
- RegistryCache.ServedIsCurrent: each read is one step, and so is each call with its commit and refresh; a reader that fetched the rows before a commit and stores its text after that call's refresh leaves the old text in the cache, which the model does not show. the runtime configuration is fixed, because changing it does not refresh the cache. Display fields of a plugin are one string.
- CliConfig.ReadConfig: the order of the eight keys and their names are constants of the model.
- ScanGates.DashboardAgreesWithServer: the sort order of provider entries and all labels are left out; lists of required providers are those the configuration can hold.
- VirusTotal.FirstAnswerDecides: of VirusTotal's answer only the two counts that decide are modelled; messages are left out.
- VirusTotal.PollingStaysInBounds: each poll is one step, from reading the record to the commit, so two polls that overlap within it are not modelled; the configuration is fixed. The table constraints do not refuse that commit (LifecyclePolls.PollsAreNeverRefused); a database that is down is not modelled. A new upload starts a new submission.
- LifecyclePolls.PollsAreNeverRefused: the list of required providers is fixed, and stored keys and URLs are not empty strings.
- CliConfig.RoundTrip: strings are valid Unicode; file permissions and missing files are not modelled.
- Instream.SendInstream: what was already written to the socket when a length does not fit is not modelled; nor are the connection and the daemon's reply.
- ArtifactTree.AncestorsComeFirst: sorting itself is the library's; lower case and string order are arbitrary functions. Reading one file out of the archive is left out.
- HTTP handlers, FastAPI wiring, JWT and bcrypt, the GitHub, S3 and language-model clients: plumbing around the modelled calls.
- SQLAlchemy, Redis and Alembic internals, zip and YAML parsing, git clones: library behaviour.
- Submission decisions, daily statistics, plugin-key inference, URL and provider-list normalisation: correct but easy.
- Vue pages, CLI dispatch and table output: no logic that a property could be about.
