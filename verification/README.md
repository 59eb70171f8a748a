# Crawler core: a verified model

This project models the four stateful cores of the crawler library and proves what they promise. Each core is
written twice: as classes and methods that work step by step like the C++ code, and as a specification whose
properties are proved for every input, every run and every interleaving.

## What is modelled

**The crawl scheduler.** `Crawler.dfy` holds the `crawl` loop as a class over the real containers
(`TimeHeap.dfy`, `DownloadQueues.dfy`, `ActionQueue.dfy`, `RobotsLogic.dfy`). Every field update is recorded
(`Traces.dfy`) as a step of the transition system in `Scheduler.dfy`, and between any two of the loop's steps the
outside world may move: completion callbacks begin, append URLs and push finish actions, and the clock advances. A
finish action is one step; `CommuteIff` shows that a callback's step may as well fall before as after it. `Crawler.Valid` says that
what has been recorded is a run of that system ending in the present state, and every method promises that it only
goes on from what was recorded (`Extends`). The guarantees are theorems about all runs of the transition system, and
so about everything the class does from the beginning of a batch to its end:

- `SchedulerInvariant.dfy`: the inductive invariant behind everything. Each host with a queue has exactly one token:
  a heap entry, which needs a non-empty queue, or one started download whose finish action has not been executed.
  What has been started for a host, followed by what its queue and its running callback will still yield, is always
  the host's plan.
- `SchedulerTheorems.dfy`: per-host order, exactly-once delivery, robots.txt first, token partition, absence of
  faults, parallelism bound, batch isolation, single owner of each queue, commuting steps, politeness, earliest due
  first.
- `SchedulerTermination.dfy`: a measure that every step except a clock tick uses up, progress (no deadlock), and the
  deadlock that follows when the constructor's refusal of zero slots is left out.
- `DownloadPlan.dfy`: the plan of a batch, stated without queues, heaps or threads.

Closures are data: a robots.txt download names the shared URL list it owns, a page download carries the dispatched
URL, a finish action is the index of its download. An iterator into the queue map is the host it points at. Using an
erased iterator, popping an empty queue and decrementing a zero counter set `fault`, which is proved to stay false.
Parsing and validity of a URI are one arbitrary function from text to an optional scheme and host.

**The work-stealing pool.** `PoolProtocol.dfy` is a transition system of any number of submitters and workers in
which each try-lock may fail, up to and including destruction; `unsigned` arithmetic wraps at 2^32. Its results cover
the living pool (`RestIsDrained`) as well as its destruction. `TaskSystem.dfy` is the pool as a class over real queues
(`JobQueue.dfy`): `async_`, the worker loop and destruction, each with all other threads acting between any two of its
steps, and each recorded as a run of the transition system.

**The action queue.** `ActionQueue.dfy` has the queue as a class and the protocol of any number of threads around it;
its methods are the protocol's steps.

**Socket interest.** `SocketInterest.dfy` has the handlers of the socket table as a class. While libcurl is called it
may report interest, open and close sockets, in any order that the operating system allows.

**The header handler.** `HeaderMatch.dfy` has the two matchers, `HeaderHandler.dfy` the buffering line splitter and
its state machine, `HeaderRoundTrip.dfy` what a content-type line is and what stands in it, without the matchers, and
that exactly this is read, `HeaderSettled.dfy` which lines fix their charset whatever follows them, `HeaderChunks.dfy`
what becomes of one stream cut into calls in different ways, `HeaderCuts.dfy` exactly when the cut can show, and
`HeaderStream.dfy` what a whole stream comes to in terms of its lines.

## Findings

- `HeaderHandler.cpp:64` passes the line's end as a length, so for every line but the first of a call the slice runs
  on past the line. State, type, subtype, line starts, leftover text and, for validators that ignore the charset, the
  abort decision are unaffected (`WrittenChunkIndependence`). The charset is not: `CharsetDependsOnCut` gives one
  stream and two cuts with two charsets. `CutsAgreeIffHarmless` says for every stream exactly when no cut of it
  shows: when nothing behind its first content-type line, read together with that line up to the length of what
  precedes it, changes the line's charset. `CutsAgreeIffSettled` says it of the line alone, for all streams that go
  on from it. With one line per call, as libcurl promises its header callback, the handler does what was intended
  (`OneLinePerCallIsExact`).
- A pool job that is an empty `std::function` may be taken by the scan in `run` and then overwritten: exactly-once
  execution holds for precisely the jobs that hold a callable (`ExactlyOnceIffCallable`).
- The offsets of a call or a scan name every queue exactly once, unless they wrap around at 2^32 and the number of
  queues does not divide it (`EachOnceIff`): with three queues the call with the last ticket tries the first queue
  twice and the third one never (`LastTicketOfThree`).
- When the popper throws, `TimeHeap::pop` leaves the earliest entry at the back, and the vector is still a heap
  exactly when that entry's parent is due at the same time (`TimeHeap.Pop`, by `FailedPopKeepsHeapIff`). A caller is
  safe when the queue of the earliest entry's host is not empty, which `TimeHeap.Pop` shows to be enough and the crawl
  loop always provides (`NoFault`).
- The token class in `HeaderHandler.cpp:16` contains the range from plus to dot. It accepts exactly the token
  characters of section 3.2.6 of RFC 7230 and the comma (`TokenClassAddsComma`), so that `content-type:a,b/c` declares
  the type `a,b` (`CommaInType`).

## Model

| member | source | states |
|---|---|---|
| Crawler.Crawler.Create | src/crawler/crawler.cpp:19-33 | a crawler is refused exactly when it is given no download slots |
| Crawler.Crawler.Crawl | src/crawler/crawler.cpp:86-129 | every round completes its batch: per-host order, every callback called, counts exact; the counter is zero between rounds |
| Crawler.Crawler.CrawlBatch | src/crawler/crawler.cpp:90-126 | one batch ends; what it recorded is a run from the initial to the exited state, with the settings of the crawler; everything expected was started and called back |
| Crawler.Crawler.RunBatch | src/crawler/crawler.cpp:100-126 | the inner loop ends against any outside world, by the termination measure, with an empty heap, and extends the recorded run to its exit |
| Crawler.Crawler.CrawlStep | src/crawler/crawler.cpp:101-122 | one iteration extends the recorded run and uses up the measure; its first step is the decision to wait, to wait until the earliest due time, or to start, as the whole vector, the counter and the clock reading demand |
| Crawler.Crawler.StartDueHosts | src/crawler/crawler.cpp:114-119 | the do-while loop ends, extends the recorded run, and leaves no slot free or no entry of the vector due at its clock reading |
| Crawler.Crawler.TestAgain | src/crawler/crawler.cpp:118-119 | the condition, which looks at the front, holds exactly when a slot is free and some entry of the whole vector is due |
| Crawler.Crawler.CountStarted | src/crawler/crawler.cpp:117 | the counter moves by one in a step of its own, after the download is already running |
| Crawler.Crawler.ExecuteActions | src/crawler/crawler.cpp:120 | every action pushed before the swap has been executed, while more may be pushed; the loop head is reached again |
| Crawler.Crawler.BeginCallback | src/crawler/RobotsLogic.cpp:96-98 | a callback begins: logged once, nothing else disturbed |
| Crawler.Crawler.AppendUrl | src/crawler/RobotsLogic.cpp:91-101 | the next URL of the owned list joins the end of its host's queue, and no other queue changes |
| Crawler.Crawler.PushFinish | src/crawler/RobotsLogic.cpp:99-102 | the finish action joins the end of the action queue, after the callback's last append |
| Crawler.PopulatedIsInit | src/crawler/crawler.cpp:96-98 | grouping and heaping give the initial state of the transition system |
| Crawler.Crawler.PopEarliest | src/crawler/crawler.cpp:116 | popping the real heap and queue has exactly the effect of the system's pop of an earliest entry |
| Crawler.Crawler.FinishDownload | src/crawler/crawler.cpp:60-73 | a finish action on the real containers has exactly the effect of the system's finish step |
| Crawler.Crawler.Release | src/crawler/crawler.cpp:64-71 | the host is rescheduled after the delay when its queue holds more, and dropped when it does not |
| Crawler.Crawler.AwaitAction | src/crawler/crawler.cpp:105 | the wait without deadline ends with an action: some unfinished download's callback can always move |
| Crawler.Crawler.AwaitActionUntil | src/crawler/crawler.cpp:111 | the wait with a deadline ends with an action or at the deadline |
| Crawler.Crawler.Outside | src/crawler/crawler.cpp:100-123 | whatever callbacks and clock do between two statements leaves counter, heap, program point and queue keys alone |
| Crawler.Crawler.Populate | src/crawler/crawler.cpp:90-98 | fresh containers: grouped queues and one entry per host, due now |
| Crawler.RunCompletes | src/crawler/crawler.cpp:86-129 | an exited run has carried out every host's plan, called each expected download back as often as expected, and nothing else |
| SchedulerTheorems.PerHostOrder | src/crawler/crawler.cpp:59-123 | in every run, at every point, the downloads started for a host are a prefix of its plan, and at exit the whole plan |
| SchedulerTheorems.ExactlyOnce | src/crawler/crawler.cpp:96-123 | at exit started and called-back downloads are, as multisets, exactly the batch |
| SchedulerTheorems.NeverMoreThanOnce | src/crawler/crawler.cpp:96-123 | at every point nothing foreign has been started and nothing called back twice |
| SchedulerTheorems.RobotsFirst | src/crawler/RobotsLogic.cpp:83-103 | a page's callback runs only after its own scheme and host's robots.txt callback |
| SchedulerTheorems.TokenSplit | src/crawler/crawler.cpp:60-73 | the hosts with a queue split exactly into heap hosts and hosts with one unfinished download, with the matching counts |
| SchedulerTheorems.TokenPartition | src/crawler/crawler.cpp:100 | at every loop head the queue count is heap size plus active downloads, and the three-part guard equals its first part |
| SchedulerTheorems.NoFault | src/crawler/crawler.cpp:60-126 | no run pops an empty queue, uses an erased iterator or decrements at zero; the check after the loop never throws |
| SchedulerTheorems.ParallelismBound | src/crawler/crawler.cpp:113-120 | unfinished downloads never exceed the maximum, not even between download and increment; the counter counts them exactly |
| SchedulerTheorems.BatchIsolation | src/crawler/crawler.cpp:88-123 | after exit nothing of the batch can act and the counter is zero |
| SchedulerTheorems.SingleOwner | src/crawler/RobotsLogic.cpp:83-103 | a callback's step and any other step possible at the same time touch different queues; callbacks never change the map |
| SchedulerTheorems.CommuteIff | src/crawler/RobotsLogic.cpp:83-103 | in every run, a callback's step and any other step possible at the same time lead to the same state in either order exactly when they do not write the same log and do not add and swap out actions |
| SchedulerTheorems.Politeness | src/crawler/crawler.cpp:60-73 | two downloads of one host never overlap, and the later starts at least the timeout after the earlier one's finish action |
| SchedulerTheorems.WorkConserving | src/crawler/crawler.cpp:101-111 | at every moment of every wait: slots taken or heap empty, with a download unfinished, or the wait ends at the earliest due time |
| SchedulerTheorems.WaitsOnlyWhenNoneDue | src/crawler/crawler.cpp:101-111 | in every run, through the whole of a wait entered with a slot free, no entry was due at the clock reading it was chosen by |
| SchedulerTheorems.StartsAllDue | src/crawler/crawler.cpp:113-120 | in every run, from the end of the do-while loop to the swap of its actions, no slot is free or no entry was due at the loop's clock reading |
| SchedulerTheorems.EarliestDueFirst | src/crawler/crawler.cpp:114-119 | one do-while run starts hosts in non-decreasing due time and none early, though finish actions wait and callbacks interleave |
| SchedulerTheorems.PickPermutes | src/crawler/crawler.cpp:96-123 | a log naming every index once delivers a permutation |
| SchedulerInvariant.StepInv | src/crawler/crawler.cpp:59-123 | every step of main thread, callbacks and clock keeps the whole invariant |
| SchedulerInvariant.RunInv | src/crawler/crawler.cpp:59-123 | the invariant holds at every point of every run |
| SchedulerInvariant.PreserveAppend | src/crawler/RobotsLogic.cpp:91-101 | a callback's append keeps the invariant: queue plus what is still to append is unchanged |
| SchedulerInvariant.PreservePop | src/crawler/crawler.cpp:116 | starting a download moves its host's token from heap to download and one element from queue to log |
| SchedulerInvariant.PreserveRun | src/crawler/crawler.cpp:60-73 | a finish action moves the token back to the heap or retires it with the empty queue |
| SchedulerInvariant.WaitHasLive | src/crawler/crawler.cpp:101-105 | the wait without deadline is entered only with an unfinished download |
| SchedulerTermination.StepMeasure | src/crawler/crawler.cpp:100-123 | every step but a tick strictly decreases the lexicographic measure; ticks never increase it |
| SchedulerTermination.BoundedRuns | src/crawler/crawler.cpp:100-123 | a batch takes a bounded number of steps, however callbacks and clock behave |
| SchedulerTermination.WorkOfBatch | src/crawler/crawler.cpp:100-123 | the bound in the batch's own numbers: one download per robot plus one per accepted URL |
| SchedulerTermination.Progress | src/crawler/crawler.cpp:101-105 | until exit some thread can move, or the clock has yet to reach a deadline |
| SchedulerTermination.ZeroSlotsNeverEnd | src/crawler/crawler.cpp:29-32 | without slots a non-empty batch starts nothing and never ends, so the constructor's refusal is needed |
| DownloadPlan.UnfoldPages | src/crawler/DownloadQueues.h:21-32 | pages appended to a last-in first-out queue come out backwards, before what was there |
| DownloadPlan.UnfoldHostQueue | src/crawler/RobotsLogic.cpp:79-103 | the grouped queue, unrolled through its callbacks, is the plan |
| DownloadPlan.PlanOfMultiset | src/crawler/RobotsLogic.cpp:56-109 | a host's plan holds exactly the batch's downloads for that host |
| DownloadPlan.StartedAllPlans | src/crawler/RobotsLogic.cpp:56-109 | finishing every host's plan is starting the whole batch once |
| DownloadPlan.BackwardsAt | src/crawler/DownloadQueues.h:21-32 | what backwards means, position by position |
| RobotsLogic.PopulateDownloadQueuesWithRobots | src/crawler/RobotsLogic.cpp:43-112 | the grouping loop refines grouping by key: one robots.txt per key in key order, every key's list filed under it |
| RobotsLogic.KeysAreGroups | src/crawler/RobotsLogic.cpp:71-77 | keys are distinct and are exactly the keys of accepted inputs |
| RobotsLogic.KeysInOrder | src/crawler/RobotsLogic.cpp:56-109 | keys are listed in order of first appearance |
| RobotsLogic.UrlsInOrder | src/crawler/RobotsLogic.cpp:105-108 | a key's list is all of its inputs, in input order |
| RobotsLogic.UrlsOfCount | src/crawler/RobotsLogic.cpp:105-108 | a key's list holds each input as often as it was dispatched under that key |
| RobotsLogic.AcceptedCount | src/crawler/RobotsLogic.cpp:60-67 | exactly the inputs that parse and are valid are accepted |
| RobotsLogic.BatchIsExact | src/crawler/RobotsLogic.cpp:56-109 | a batch is one robots.txt per key plus each accepted input under its own key; rejected inputs cause no download |
| RobotsLogic.BatchSize | src/crawler/RobotsLogic.cpp:56-109 | the pages of a batch are as many as the accepted inputs |
| RobotsLogic.RobotsTxtUrlParts | src/crawler/RobotsLogic.cpp:31-37 | an address is, position by position, the scheme, `://`, the host and `/robots.txt`, for every key |
| RobotsLogic.RobotsTxtUrlInjective | src/crawler/RobotsLogic.cpp:31-37 | with no colon in the schemes, addresses are equal exactly when keys are |
| RobotsLogic.RobotsTxtUrlClash | src/crawler/RobotsLogic.cpp:31-37 | a colon in a scheme can make two keys share an address |
| RobotsLogic.DistinctRobotsTxtUrls | src/crawler/RobotsLogic.cpp:54-109 | in a batch of http and https keys no two robots.txt downloads share an address |
| DownloadQueues.DownloadQueues.GetQueueByHost | src/crawler/DownloadQueues.h:13-19 | finds or creates the host's queue and leaves all others alone |
| DownloadQueues.DownloadQueues.AddDownload | src/crawler/DownloadQueues.h:21-23 | appends to one queue |
| DownloadQueues.DownloadQueues.PopDownload | src/crawler/DownloadQueues.h:25-32 | takes the most recent download, or fails exactly on an empty queue without change |
| DownloadQueues.DownloadQueues.Erase | src/crawler/DownloadQueues.h:38 | drops one queue |
| TimeHeap.FrontIsEarliest | src/crawler/TimeHeap.h:43-55 | the heap order bounds every entry by the front |
| TimeHeap.TimeHeap.FromQueues | src/crawler/TimeHeap.h:17-24 | one entry per host, due now, already a heap without make_heap |
| TimeHeap.TimeHeap.TopTime | src/crawler/TimeHeap.h:43-48 | the minimum over all entries, or the exception exactly when empty |
| TimeHeap.TimeHeap.Push | src/crawler/TimeHeap.h:38-41 | adds exactly one entry and keeps the heap |
| TimeHeap.TimeHeap.PopHeap | src/crawler/TimeHeap.h:32 | the front goes to the back, the rest is a heap, nothing is lost |
| TimeHeap.TimeHeap.Pop | src/crawler/TimeHeap.h:28-36 | removes one entry of the minimum and pops its host's queue; when the popper throws nothing is lost, the entries before the back are a heap, and all of them are exactly when the back's parent is due at the same time; when the heap is empty nothing changes |
| TimeHeap.FailedPopKeepsHeapIff | src/crawler/TimeHeap.h:28-36 | after a throwing popper the vector is a heap exactly when the back's parent is due at the same time |
| TimeHeap.FailedPopBreaksHeap | src/crawler/TimeHeap.h:28-36 | two hosts due at different times break it |
| ActionQueue.ActionQueue.Push | src/crawler/ActionQueue.h:71-77 | appends one action, and is the protocol's push on every state that the fields stand for |
| ActionQueue.ActionQueue.Swap | src/crawler/ActionQueue.h:82-91 | hands over all actions at once; batches followed by the queue stay the push order; it is the protocol's swap, by whichever executor and from whichever wait |
| ActionQueue.OthersRepresent | src/crawler/ActionQueue.h:82-91 | the executors' own steps leave what the fields stand for alone |
| ActionQueue.Conservation | src/crawler/ActionQueue.h:20-91 | for any pushers and executors, batches in swap order and the queue are the push order, and what has run is what the batches say |
| ActionQueue.DrainedExactlyOnce | src/crawler/ActionQueue.h:20-91 | with executors idle and the queue empty every action has run exactly once |
| ActionQueue.SingleExecutorInOrder | src/crawler/ActionQueue.h:20-91 | a single executor runs a prefix of the push order, at every moment |
| ActionQueue.WaitsAreHonest | src/crawler/ActionQueue.h:26-27 | in every run, the batch a wait handed over is at every later moment not empty, unless the wait had a deadline that had come |
| JobQueue.JobQueue.TryPop | src/utils/JobQueue.h:13-21 | takes the front, or nothing exactly when the lock or a job is missing |
| JobQueue.JobQueue.TryPush | src/utils/JobQueue.h:23-33 | appends exactly when the lock is had |
| JobQueue.JobQueue.Pop | src/utils/JobQueue.h:46-57 | fails exactly on a closed empty queue |
| JobQueue.JobQueue.Push | src/utils/JobQueue.h:59-65 | appends |
| TaskSystem.TaskSystem.constructor | src/utils/TaskSystem.h:16-38 | as many empty open queues and scanning workers as asked for, as the hardware has, or two, and 32 tries per queue: the initial state of the protocol |
| TaskSystem.TaskSystem.Async | src/utils/TaskSystem.h:44-54 | the call, whose ticket is the number of calls before it, returns; its last step puts the job at the back of one queue: that of the first offset whose try-lock succeeded, else the call's first one; others act in between |
| TaskSystem.TaskSystem.Run | src/utils/TaskSystem.h:63-76 | the worker loop, with all other threads acting in between and no assumption on open queues, ends once the destructor has closed the queues, with the own queue closed and empty |
| TaskSystem.TaskSystem.Round | src/utils/TaskSystem.h:64-75 | one round, at any time in the life of the pool, ends back at the scan or with the worker returned, and uses up the measure during destruction |
| TaskSystem.TaskSystem.Scan | src/utils/TaskSystem.h:67-70 | the scan, whether queues are open or closed, ends with a job in hand or on the way to pop |
| TaskSystem.TaskSystem.TryPopStep | src/utils/TaskSystem.h:68 | one try of the scan records exactly one step, the protocol's try on the queue of that offset: its front in hand, an empty function overwritten, or the next offset |
| TaskSystem.TaskSystem.AwaitJob | src/utils/JobQueue.h:47-50 | the wait in pop ends with a job, or with the queue closed |
| TaskSystem.TaskSystem.Destroy | src/utils/TaskSystem.h:57-61 | destruction closes the queues, joins the threads and ends, whatever they still steal; then all queues are empty and every callable job has run exactly as often as it was submitted |
| PoolProtocol.TargetNext | src/utils/TaskSystem.h:46-48 | offset 0 names the ticket's own queue, each next offset the next queue, and the first queue comes after the last |
| PoolProtocol.TargetRepeats | src/utils/TaskSystem.h:67-68 | a scan goes round the queues again and again |
| PoolProtocol.EachOnceIff | src/utils/TaskSystem.h:46-48 | the offsets of one round name every queue exactly once, if and only if they do not wrap around at 2^32 or the number of queues divides it |
| PoolProtocol.LastTicketOfThree | src/utils/TaskSystem.h:46-48 | a ticket with which one of three queues is tried twice and another never |
| PoolProtocol.Tickets | src/utils/TaskSystem.h:45 | in every run calls have consecutive tickets, modulo 2^32 |
| PoolProtocol.RunInv | src/utils/TaskSystem.h:44-76 | in every run each accepted job is queued, held, run or dropped, exactly once in all |
| PoolProtocol.DrainsExactlyOnce | src/utils/TaskSystem.h:57-76 | when all workers have returned, queues are empty and every callable job has run as often as submitted |
| PoolProtocol.EmptyFunctionIsDropped | src/utils/TaskSystem.h:65-73 | a run in which an empty function is submitted and never run |
| PoolProtocol.ExactlyOnceIffCallable | src/utils/TaskSystem.h:44-76 | exactly-once in all runs holds for a job exactly when it holds a callable |
| PoolProtocol.WorkUsesMeasure | src/utils/TaskSystem.h:57-76 | every step of a worker or of closing a queue uses up a measure, in a living pool as during destruction |
| PoolProtocol.WorkIsBounded | src/utils/TaskSystem.h:63-76 | while no call comes in or is carried on, the workers come to rest after a bounded number of steps |
| PoolProtocol.RestIsDrained | src/utils/TaskSystem.h:63-76 | in a living pool, when every call has returned and no worker can move, the queues are empty and every callable job has run exactly as often as it was submitted |
| PoolProtocol.DestructionEnds | src/utils/TaskSystem.h:57-76 | destruction takes a bounded number of steps, whatever was queued, stolen or missed |
| PoolProtocol.DestructionProgresses | src/utils/TaskSystem.h:57-76 | until every worker has returned, a queue can be closed or a worker can move |
| SocketInterest.SocketTable.OpenSocket | src/crawler/CurlAsioDownloader.cpp:181-204 | afterwards the socket is in the table, with no interest, under the next opening; all other sockets and all waits are as before |
| SocketInterest.SocketTable.CloseSocket | src/crawler/CurlAsioDownloader.cpp:207-218 | the socket leaves the table; all other sockets and all waits, its own included, are as before |
| SocketInterest.SocketTable.AddSocketActions | src/crawler/CurlAsioDownloader.cpp:268-291 | one wait is added for each direction that the interest, by libcurl's codes, begins to include, and no other; the interest is recorded, and an unknown socket changes nothing |
| SocketInterest.IncludesIsWants | src/crawler/CurlAsioDownloader.cpp:53-61 | interest code 1 is reading, 2 writing, 3 both, and any other neither |
| SocketInterest.OpeningIsNew | src/crawler/CurlAsioDownloader.cpp:181-204 | in every run a socket is opened under an opening that no socket and no outstanding wait has |
| SocketInterest.InterestBegins | src/crawler/CurlAsioDownloader.cpp:282-290 | how many waits of each kind there are after interest is reported |
| SocketInterest.ScriptLast | src/crawler/CurlAsioDownloader.cpp:237-240 | libcurl's callbacks take effect one after the other |
| SocketInterest.UnwantedIsDropped | src/crawler/CurlAsioDownloader.cpp:222-232 | a completion for a closed socket or an unwanted direction ends its wait and does nothing else |
| SocketInterest.CallbacksTakeEffect | src/crawler/CurlAsioDownloader.cpp:232-258 | after a wanted completion the sockets are as libcurl's callbacks have left them |
| SocketInterest.SocketTable.DoSocketAction | src/crawler/CurlAsioDownloader.cpp:222-265 | a completion, with any callbacks of libcurl in between, has the effect the specification describes |
| SocketInterest.HandlerKeepsArmed | src/crawler/CurlAsioDownloader.cpp:222-265 | a completion, stale or not, failed or not, leaves every socket armed |
| SocketInterest.NoLostWakeUp | src/crawler/CurlAsioDownloader.cpp:107-291 | in every run each wanted direction of each socket has an outstanding wait of its own, unless its own wait failed |
| SocketInterest.FailsOnlyByOwnError | src/crawler/CurlAsioDownloader.cpp:232-235 | that exception arises only from an errored completion of the socket's own wanted wait |
| SocketInterest.StillWaitingIff | src/crawler/CurlAsioDownloader.cpp:232-258 | after a wanted completion with libcurl passive there are as many such waits as before, or one less after an error; so the wait is still there exactly when there was no error or another wait |
| HeaderMatch.MatchContextType | src/utils/curl/HeaderHandler.cpp:14-47 | a media type is found exactly for the lines the specification reads as content-type lines, and it is theirs |
| HeaderMatch.SearchCharset | src/utils/curl/HeaderHandler.cpp:31-40 | the search loop over the parameters finds the charset the recursive specification finds |
| HeaderMatch.MatchTypeTail | src/utils/curl/HeaderHandler.cpp:16-29 | type and subtype never depend on what follows the line |
| HeaderMatch.StatusTail | src/utils/curl/HeaderHandler.cpp:86-99 | neither does the status |
| HeaderMatch.TokenClassAddsComma | src/utils/curl/HeaderHandler.cpp:16 | the code's token class is exactly that of RFC 7230 and the comma |
| HeaderMatch.CommaInType | src/utils/curl/HeaderHandler.cpp:16-20 | a line whose declared type is no token of the standard |
| HeaderRoundTrip.ReadsWhatWasWritten | src/utils/curl/HeaderHandler.cpp:14-47 | a content-type line reads back as its type, subtype and first charset, for a field name in any case, a space or none after the colon, and any parameters with blanks around their semicolons and values that are tokens or quoted strings with escapes |
| HeaderRoundTrip.MatchesIffWritten | src/utils/curl/HeaderHandler.cpp:16-29 | a type and a subtype are found exactly in the lines that are a field name in any case, a space or none, these two as tokens around a slash, and a rest that starts with no token character |
| HeaderRoundTrip.ParamIffWritten | src/utils/curl/HeaderHandler.cpp:16-23 | in any text, a parameter is found at a place exactly when one is written there: blanks, a semicolon, blanks, a token, an equals sign, and the longest token or a quoted string |
| HeaderRoundTrip.ParametersFound | src/utils/curl/HeaderHandler.cpp:31-40 | in any text the search goes from one parameter to the next that stands behind it, until there is none |
| HeaderRoundTrip.CharsetOfFound | src/utils/curl/HeaderHandler.cpp:31-40 | the charset read from any text is the value of the first parameter named charset, in any case, among those so found |
| HeaderRoundTrip.ReadsWhatIsDeclared | src/utils/curl/HeaderHandler.cpp:14-47 | for any line at all, the media type read is exactly the one it declares: type and subtype as written, charset as found |
| HeaderSettled.CharsetIndependentIffSettled | src/utils/curl/HeaderHandler.cpp:31-40 | the charset of a line is the same whatever follows it exactly when the line is settled |
| HeaderSettled.UnsettledDiffers | src/utils/curl/HeaderHandler.cpp:31-40 | an unsettled line has two short continuations with two charsets |
| HeaderHandler.HeaderHandler.Call | src/utils/curl/HeaderHandler.cpp:51-83 | one call is one feed of the specification, whose calls come to what `HeaderStream.StreamOutcome` says; the result is the size, or -1 exactly on abort |
| HeaderHandler.HeaderHandler.ProcessLine | src/utils/curl/HeaderHandler.cpp:85-132 | one line through the state machine that `HeaderStream.StreamOutcome` describes |
| HeaderStream.StatusIffWritten | src/utils/curl/HeaderHandler.cpp:87-93 | a status is read exactly from a line that is `HTTP/1.1`, a space, three digits, a space and any reason |
| HeaderStream.StreamOutcome | src/utils/curl/HeaderHandler.cpp:51-132 | for lines and a leftover cut into calls in any way: without a first line of status 2xx the download is aborted; before a content-type line it goes on; the first content-type line and no later one is put to the validator, whose verdict decides; then the leftover is held |
| HeaderHandler.NoEarlierLineEnd | src/utils/curl/HeaderHandler.cpp:60-63 | the line end found is the first |
| HeaderHandler.SplitUnsplit | src/utils/curl/HeaderHandler.cpp:59-72 | the lines of a text, each with its line end, and the leftover give the text back, and none of them holds a line end |
| HeaderHandler.UnsplitSplit | src/utils/curl/HeaderHandler.cpp:59-72 | any lines and leftover without line ends are what their text is split into |
| HeaderHandler.ExactScan | src/utils/curl/HeaderHandler.cpp:59-72 | with the intended slice, scanning is splitting into lines and running them |
| HeaderHandler.SplitMore | src/utils/curl/HeaderHandler.cpp:52-83 | more text only adds lines: complete ones stay, the leftover is split together with it |
| HeaderHandler.ExactFeedIsStream | src/utils/curl/HeaderHandler.cpp:51-83 | with the intended slice, any calls come to the lines of the whole stream |
| HeaderHandler.ExactChunkIndependence | src/utils/curl/HeaderHandler.cpp:51-83 | so chunk boundaries do not matter |
| HeaderChunks.WrittenMatchesExact | src/utils/curl/HeaderHandler.cpp:64 | for the same calls the code as written and as intended agree on all but the charset |
| HeaderChunks.WrittenChunkIndependence | src/utils/curl/HeaderHandler.cpp:51-83 | as written, chunk boundaries change neither state, type, subtype, abort decision nor leftover, for validators that ignore the charset |
| HeaderChunks.SettledIsExact | src/utils/curl/HeaderHandler.cpp:51-83 | as written equals as intended, for any validator and calls, when the header lines read are settled |
| HeaderChunks.OneLinePerCallIsExact | src/utils/curl/HeaderHandler.cpp:51-83 | and when no call completes more than one line |
| HeaderCuts.SettledStreamAgrees | src/utils/curl/HeaderHandler.cpp:51-83 | no cut of a stream shows when the header lines read are settled |
| HeaderCuts.CutsAgreeIffHarmless | src/utils/curl/HeaderHandler.cpp:51-83 | for every stream: no cut of it shows exactly when nothing that can be read along with its deciding line changes the line's charset |
| HeaderCuts.CutsAgreeIffSettled | src/utils/curl/HeaderHandler.cpp:64 | whatever lines lead to a content-type line: no cut of any stream that goes on from it shows exactly when the line is settled |
| HeaderCuts.UnsettledYetHarmless | src/utils/curl/HeaderHandler.cpp:64 | a stream with an unsettled line of which no cut shows: the two conditions differ |
| HeaderCuts.CharsetDependsOnCut | src/utils/curl/HeaderHandler.cpp:64 | one stream, two cuts, two charsets |

## Left out

- Crawler.Crawler.Crawl: `keepCrawling` and the dispatcher are a finite list of batches; a crawl that is never told to stop is not modelled.
- Crawler.Crawler.CrawlBatch: politeness is not claimed across batches, where the heap is rebuilt with all hosts due at once, as in the code.
- Crawler.Crawler.FinishDownload: one step, although callbacks may run between its push into the heap, or its erasing of the queue, and its decrement of the counter; `CommuteIff` says that a callback's step and a finish action commute.
- SchedulerTheorems.SingleOwner: the debug output of the finish action (crawler.cpp:61-63) walks all queues without a lock; logging is not part of this model.
- TimeHeap.TimeHeap.FromQueues: the order in which the map is walked is arbitrary, not sorted by host; `std::push_heap` and `std::pop_heap` are ordinary binary sifts as described in [alg.heap.operations] of ISO/IEC 14882:2017.
- JobQueue.JobQueue.Pop: the waiting loop is represented by the condition under which it ends.
- TaskSystem.TaskSystem.Run: the destructor is taken to start after finitely many rounds of the worker, since a pool that is never destroyed has workers that never return.
- TaskSystem.TaskSystem.Destroy: called, as the class demands, when every `async_` call has returned and none follows.
- HeaderMatch.MatchContextType: the regular expressions are a matcher anchored at the start of the text, with ASCII case folding; multi-line anchoring, which some standard libraries apply to `^`, is not modelled.
- HeaderHandler.HeaderHandler.Call: the text written to the error stream is not modelled.
- The memory model, mutexes and condition variables: each locked section is one step, and the clock never runs backwards.
- URI parsing and the validity test: an arbitrary function; `uriUtils` is not part of this model.
- libcurl, Boost.Asio and the operating system: arbitrary callers that open only closed descriptors, close only open ones, and complete each wait once.
- The result of a download: the robots.txt callback ignores it and always appends the URLs (`RobotsLogic.cpp:83-103`), although the repository's README (lines 31-35) says that nothing is crawled after a failed robots.txt download.
- Robots.txt filtering: announced in the repository's README, not implemented in the code.
- Exceptions from user callbacks and from `throwOnError`: the protocols have no recovery path.
- Timers, shutdown after the `io_context` has stopped, the content cap of `DownloadManager`, logging, command line and file reading.
