# easyRDMA: a verified model of its locks, buffer queues and credit protocol

easyRDMA moves large buffers between two machines. Three parts of it keep
intricate state under locks, and a fourth decides how long a session lives:

* **The access manager** is a recursive shared/exclusive lock. Threads queue in
  a first-come, first-served line, can suspend and resume what they hold, and
  remember the order of their accesses in a 32-bit word. A releasing thread
  lets in at most one waiter, which then looks at the line again itself.
* **The buffer queue** circulates a fixed pool of buffers through idle, user,
  waiting-for-credit, queued and completed, on top of a modular ring buffer.
  Posting to the queue pair happens outside the lock, from two threads.
* **The credit protocol** joins a sender's and a receiver's queue. The receiver
  posts a receive and announces its length; the sender posts only against the
  oldest announced length.
* **The session tables** close a session later when the user still holds
  buffers.

Each part has three layers. A value model says what one locked section does
(`AccessModel`, `QueueModel`, `CreditCodec`, `SessionModel`). A step system
covers every interleaving of every number of threads, calls and network events,
with an invariant kept by each step (`AccessRuns`, `QueueRuns`,
`CreditProtocol` with `CreditSteps`, `SessionModel`), and theorems follow about
all runs (`AccessTheorems` and `AccessGrants`, `QueueTheorems`, `QueueAnswers`
and `CallbackTheorems`, `CreditTheorems` and `DeliveryTheorems`,
`SessionTheorems`). Imperative classes with the source's own fields and loops
compute exactly what the value model says, so the theorems apply to them: linked
request objects in `RequestList` and `AccessManager`, arrays in `CircularFifo`,
rings in `BufferQueue`, and `ConnectedSession` and `SessionManager`.

`dafny verify dfyconfig.toml` checks everything.

## What the proofs turned up

* `AddCredit` records its failure after it has released the queue lock. In the
  window between, a later message that fits the credit which was too small
  overtakes the waiting ones. Submission order, and with it in-order delivery,
  holds if and only if no submission falls into that window and fits
  (`QueueTheorems.CreditsReorderOnlyInWindow`,
  `DeliveryTheorems.DeliveredIsPrefix`). `OvertakingExample.SecondDeliveredFirst`
  is a run of fourteen events in which the receiver is given the second message
  and not the first. At most one message of a connection can overtake.
* `HasSharedAccess` is documented to say whether the caller has shared access.
  It does so exactly for callers that do not hold both kinds of access
  (`AccessTheorems.SharedAnswerAsDocumented`); a thread that takes shared and
  then exclusive access is told that it has no shared access
  (`AccessTheorems.SharedAnswerFails`).
* Callbacks are collected under the queue lock and called after it. Each is
  called exactly once, but not always in the order of service: the calls are in
  that order if and only if no callback of an abort is called while one of a
  completion is in hand (`CallbackTheorems.CallbacksFireOnce`).
  `CallbackExamples.CallsCanBeInverted` is a run in which a disconnection calls
  the second callback before the completion thread calls the first.
* Queueing a buffer region a second time while it is pending is refused, but
  only after its size and its callback have been set
  (core/api/rdma_api_c.cpp:273-275,
  core/common/RdmaConnectedSessionBase.cpp:266-274). The callbacks still held
  stay as they are if and only if the new size is larger than the buffer (then
  nothing is set) or the callback is the same; the lengths still to be posted if
  and only if the size is larger than the buffer, is the same, or the buffer has
  been posted already (`CallbackTheorems.SecondQueueingChanges`).
  `CallbackExamples.SecondQueueingIsCalled` is a run in which the replacing
  callback is called. A buffer that the credit thread is about to post, given a
  message longer than its credit in this way, is sent although it fits no
  receive (`CreditTheorems.LateGrowthOverruns`). The run theorems assume that
  users do not queue pending buffers.
* Session handles are new only until 2^64 of them have been issued; then an open
  session's handle is issued again and its table entry is replaced
  (`SessionModel.FreshUntilWrapped`, `SessionModel.WrappedHandleIsReused`).
* The limit of 32 nested accesses is tight: one more keeps the history exactly if
  its oldest access was exclusive (`NestingWord.DepthLimitIsTight`).
* `CheckDeferredSessionDestructionReady` changes the table of deferred sessions
  without the table lock (core/api/rdma_api_common.h:78-86). The model takes
  each API call as one step and does not cover calls that overlap there.

## Assumptions

* The wire is in order and lossless and completions come in post order, as a
  reliable-connected queue pair promises; posting to the queue pair succeeds.
* One user thread posts at a time; the credit thread posts beside it.
* A queue either always ignores credits (credit messages) or never does
  (transfers), as every caller in the source has it.
* In runs, `SetUsed`, `SetBufferRegion` and `SetCompletionCallback` are applied
  only to buffers in the user's hands; the findings above say what else can
  happen. The methods themselves do not demand it.
* A suspended thread does not acquire, nesting stays within 32, and below 32
  when an exclusive holder suspends: the source asserts or states these.
* A woken request is marked as signalled when it joins the active list; the
  source does both in the same locked section.

## Model

| member | source | states |
|---|---|---|
| NestingWord.PushAppends | core/api/tAccessManager.h:1143-1186 | whatever bits the word held, a push below depth 32 appends to the encoded history |
| NestingWord.EncodesInjective | core/api/tAccessManager.h:1199-1216 | word and depth determine the history, so popping gives back exactly what was pushed |
| NestingWord.OnesAreShared | core/api/tAccessManager.h:1149-1158 | the ones among the bits in use are as many as the shared accesses |
| NestingWord.DepthLimitIsTight | core/api/tAccessManager.h:1155-1157 | a 33rd access keeps the history if and only if the oldest access is exclusive |
| RequestLists.AddAppends | core/api/tAccessManager.h:1143-1186 | counters and nesting word follow the history when an access is added |
| RequestLists.Request.Add | core/api/tAccessManager.h:1143-1186 | changes the request in place so that it stands for the longer history |
| RequestLists.RemoveLastPops | core/api/tAccessManager.h:1199-1216 | the lowest bit is the newest access, the right counter is positive and goes down, and the rest of the history stays |
| RequestLists.Request.RemoveLast | core/api/tAccessManager.h:1199-1216 | changes the request in place so that it stands for the shorter history, and tells which kind went |
| RequestLists.Request.Begin | core/api/tAccessManager.h:1054-1061 | a request built in recycled memory with arbitrary nesting bits stands for a history of one access |
| RequestLists.RequestList.RemoveHead | core/api/tAccessManager.h:1420-1433 | unlinks the first node; the chain visits every other node once and the cached totals are the sums over it |
| RequestLists.RequestList.Remove | core/api/tAccessManager.h:1446-1465 | unlinks the first node of a thread, leaves the others linked in order, keeps the totals the sums |
| RequestLists.RequestList.Search | core/api/tAccessManager.h:1451-1455 | the walk through the links stops at the link to the first node of the thread or at the last link |
| RequestLists.RequestList.Splice | core/api/tAccessManager.h:1460-1461 | redirecting one link takes one node out of the chain and keeps all others |
| RequestLists.RequestList.AddAtHead | core/api/tAccessManager.h:1478-1487 | links a node that is in no list in front and keeps the totals the sums |
| RequestLists.RequestList.Last | core/api/tAccessManager.h:1505-1507 | the walk ends at the last link |
| RequestLists.RequestList.AddAtTail | core/api/tAccessManager.h:1500-1516 | links a node that is in no list behind the last one and keeps the totals the sums |
| RequestLists.SumsAreTotals | core/api/tAccessManager.h:1530-1565 | sums over the linked requests are the totals of the accesses they stand for |
| AccessModel.TotalsDetectEmpty | core/api/tAccessManager.h:1530-1533 | testing the access total of a list is testing whether it is empty |
| AccessManagers.AccessManager.constructor | core/api/tAccessManager.h:245-268 | starts with empty lists and 32 spare requests whose events are reset |
| AccessManagers.AccessManager.ServeHead | core/api/tAccessManager.h:890-935 | offers access to the head of the line, which keeps its place if it cannot have it; every linked request stays linked as the same object |
| AccessManagers.AccessManager.SatisfyRequest | core/api/tAccessManager.h:877-918 | lets the caller in, or serves the head and puts the caller's node at the end of the line, where it waits on it; no node is in two lists |
| AccessManagers.AccessManager.SignalledIsActive | core/api/tAccessManager.h:918-935 | a request that has stayed linked and whose event is set is in the active list, in every state the runs reach |
| AccessManagers.AccessManager.WaitForSignal | core/api/tAccessManager.h:919-921 | the pointer the thread kept is its node in the active list; the event resets in place, lists and totals stay |
| AccessManagers.AccessManager.NewRequest | core/api/tAccessManager.h:1091-1106 | recycles a request together with whatever its event and bits hold |
| AccessManagers.AccessManager.GetAccess | core/api/tAccessManager.h:789-860 | new, nested and promoted accesses change the lists as the value model says; the caller keeps a pointer to its node, and no other node is unlinked or renamed |
| AccessManagers.AccessManager.ReleaseLast | core/api/tAccessManager.h:329-351 | gives back the newest access, tells whether it was exclusive, and serves the line; only the thread's own node may leave the lists |
| AccessManagers.AccessManager.SuspendAccess | core/api/tAccessManager.h:503-526 | moves the request aside with its history unchanged and serves the line; every linked request stays linked |
| AccessManagers.AccessManager.ResumeAccess | core/api/tAccessManager.h:536-554 | asks again for everything that was suspended |
| AccessManagers.AccessManager.ReleaseAndReacquireAtEnd | core/api/tAccessManager.h:467-492 | goes to the end of a non-empty line with the whole history |
| AccessManagers.AccessManager.HasExclusiveAccess | core/api/tAccessManager.h:719-738 | the answer, and the caller's request moves to the front of the list |
| AccessManagers.AccessManager.HasSharedAccess | core/api/tAccessManager.h:754-773 | the answer, and the caller's request moves to the front of the list |
| AccessRuns.SatisfyHeadKeeps | core/api/tAccessManager.h:890-935 | serving the head keeps lists, events and histories consistent, and afterwards no wake-up is missing |
| AccessRuns.SatisfyOwnKeeps | core/api/tAccessManager.h:877-923 | the same for a thread that asks for itself, and it is let in at once only if nobody waits |
| AccessRuns.StepKeeps | core/api/tAccessManager.h:306-554 | every step of every thread keeps the invariant and changes no other thread's history |
| AccessRuns.RunKeeps | core/api/tAccessManager.h:306-937 | the invariant holds after every interleaving |
| AccessTheorems.MutualExclusion | core/api/tAccessManager.h:789-937 | after every run, a thread with an exclusive access is the only active one |
| AccessTheorems.EachThreadOnce | core/api/tAccessManager.h:1420-1516 | a thread has at most one request in active, pending and suspended together |
| AccessTheorems.QueriesAnswerForCaller | core/api/tAccessManager.h:719-773 | the queries read totals over all threads, yet answer exactly for the caller |
| AccessTheorems.SharedAnswerAsDocumented | core/api/tAccessManager.h:740-773 | for an active caller the documented meaning of `HasSharedAccess` holds if and only if it does not hold both kinds of access |
| AccessTheorems.SharedAnswerFails | core/api/tAccessManager.h:740-773 | a run after which a thread with shared access is told that it has none |
| AccessTheorems.SignalMatching | core/api/tAccessManager.h:109-118 | an event is set only for a thread that waits and has been let in; spare requests carry no signal |
| AccessTheorems.SignalConsumedOnce | core/api/tAccessManager.h:109-112 | leaving the wait resets the event, so one signal frees one wait |
| AccessTheorems.FirstComeFirstServed | core/api/tAccessManager.h:905-923 | arrivals in the line are those granted from it followed by those still in it |
| AccessTheorems.WaiterNeverMovesBack | core/api/tAccessManager.h:905-923 | in each step a waiter keeps its place, moves up by one, or is let in as the first |
| AccessTheorems.NoOvertaking | core/api/tAccessManager.h:890-893 | a first access, a promotion, a resumption and a reacquisition are granted at once only if the line is empty |
| AccessGrants.NobodyForgotten | core/api/tAccessManager.h:905-935 | if threads wait and nobody is about to serve the line, some active thread holds exclusive access, or the first in line wants it and somebody is active; nobody waits for a free lock |
| AccessGrants.GrantedAtOnce | core/api/tAccessManager.h:884-937 | a first access, a promotion, a resumption and a reacquisition are granted at once if and only if nobody waits, no other active thread holds exclusive access, and nobody else is active or the thread will hold none; otherwise the thread is last in line |
| AccessGrants.ReadersShare | core/api/tAccessManager.h:890-893 | shared access beside shared access is granted at once when nobody waits |
| AccessGrants.NestedIsImmediate | core/api/tAccessManager.h:798-842 | an active thread that adds a shared access, or any to an exclusive one, has it at once, whoever waits, and nothing changes for anybody else |
| AccessGrants.RequestsConserved | core/api/tAccessManager.h:1091-1130 | no request is lost, and one is made only if a thread without one comes and none is spare |
| AccessTheorems.SomeoneCanFinish | core/api/tAccessManager.h:827-937 | while anybody holds or awaits access, some thread can release, wake or go on |
| AccessTheorems.FinishingRunsAreShort | core/api/tAccessManager.h:827-937 | no deadlock and no starvation: finishing steps in any order end within a bound, and only when every waiter was let in and all is released |
| AccessTheorems.HistoryIsOwn | core/api/tAccessManager.h:503-554 | a thread's accesses are a stack that only its own calls change; suspend, resume and queries leave it alone |
| AccessTheorems.ReleasesReturnTheHistory | core/api/tAccessManager.h:394-404 | what `Release` returned, reversed, is what the history has lost |
| AccessTheorems.ReleaseAllAcquireAll | core/api/tAccessManager.h:373-404 | under any interleaving, waits of the thread included: the loop of `ReleaseAll` stops exactly when nothing is held, its stack never overflows, `AcquireAll` restores the history, and when it returns the thread is active with it |
| CircularFifos.PushAppends | core/common/tCircularFifo.h:56-61 | writing at the modular write index appends to the queue the ring stands for |
| CircularFifos.PopDropsFirst | core/common/tCircularFifo.h:73-78 | advancing the head drops the first element and stays in range |
| CircularFifos.RingIsQueue | core/common/tCircularFifo.h:29-97 | for every capacity and every run the ring holds what a plain queue would hold |
| CircularFifos.CircularFifo.Reallocate | core/common/tCircularFifo.h:29-33 | empties the ring and sets its capacity |
| CircularFifos.CircularFifo.Push | core/common/tCircularFifo.h:56-61 | appends, given room |
| CircularFifos.CircularFifo.Front | core/common/tCircularFifo.h:65-69 | refers to the place of the first element |
| CircularFifos.CircularFifo.Pop | core/common/tCircularFifo.h:73-78 | removes the first element without touching the array, so a reference from `front` stays good |
| QueueRuns.SubmitKeeps | core/common/RdmaBufferQueue.cpp:179-218 | queueing keeps pool, post order and records, also when it is refused |
| QueueRuns.CreditKeeps | core/common/RdmaBufferQueue.cpp:220-241 | adding a credit keeps them, also when it fails and nothing is recorded yet |
| QueueRuns.FailureKeeps | core/common/RdmaBufferQueue.cpp:241-245 | so does recording the failure, after the lock |
| QueueRuns.CompleteKeeps | core/common/RdmaBufferQueue.cpp:141-177 | a completion keeps them, before and after an abort |
| QueueRuns.AbortKeeps | core/common/RdmaBufferQueue.cpp:37-73 | an abort keeps them |
| QueueRuns.DetachedStep | core/common/RdmaBufferQueue.cpp:37-246 | even after an abort, a buffer at the queue pair or about to be posted is neither with the user nor completed |
| QueueRuns.RunKeeps | core/common/RdmaBufferQueue.cpp:37-256 | the invariant holds after every run of a queue and its queue pair |
| QueueTheorems.PoolNeverLeaks | core/common/RdmaBufferQueue.cpp:37-318 | after every run each buffer is in exactly one of the five places, and their sizes add up to the pool |
| QueueTheorems.PostOrderIsQueueOrder | core/common/RdmaBufferQueue.cpp:158 | at most one queued buffer is unposted, post order is queue order, and the in-order assertion never fails |
| QueueTheorems.CreditsReorderOnlyInWindow | core/common/RdmaBufferQueue.cpp:190-245 | finished, queued, waiting is the order of submission if and only if no submission fitted a failed credit before its failure was recorded; otherwise exactly that one is ahead of those that waited |
| QueueTheorems.OvertakingHappens | core/common/RdmaBufferQueue.cpp:220-245 | a run of seven events in which it happens |
| QueueTheorems.CreditFailsOnlyIfTooSmall | core/common/RdmaBufferQueue.cpp:226-233 | a credit fails exactly if the first waiting buffer does not fit it, and is then the only credit |
| CallbackTheorems.CallbacksFireOnce | core/common/RdmaBufferQueue.cpp:37-177 | each collected callback has been called or is in hand, once; collected and held ones are those of the accepted submissions in order of service; the calls are in that order if and only if no abort callback was called while a completion's was in hand |
| CallbackTheorems.AllCalled | core/common/RdmaBufferQueue.cpp:37-177 | when nothing is in hand or pending, the calls made are the callbacks of all accepted submissions, each once |
| CallbackExamples.CallsCanBeInverted | core/common/RdmaBufferQueue.cpp:70-72 | a run in which an abort's callback is called before that of an earlier completion |
| CallbackTheorems.SecondQueueingChanges | core/common/RdmaConnectedSessionBase.cpp:266-274 | queueing a pending buffer is refused, and leaves held callbacks and unposted lengths alone exactly under the stated conditions |
| CallbackTheorems.PostedSizeIsForgotten | core/common/RdmaBuffer.cpp:79-83 | the size of a posted buffer no longer matters, since its completion overwrites it |
| CallbackTheorems.FirstQueueing | core/api/rdma_api_c.cpp:273-275 | the API call on a buffer in the user's hands is what the runs call preparing and submitting |
| CallbackExamples.SecondQueueingIsCalled | core/common/RdmaConnectedSessionBase.cpp:266-274 | a run after which a refused second call makes the queue call another callback than the one submitted |
| CreditTheorems.LateGrowthOverruns | core/common/RdmaBufferQueue.cpp:226-240 | a buffer that grows after it was matched with a credit still fits exactly if it fits that credit, and cannot arrive otherwise |
| QueueTheorems.AbortReports | core/common/RdmaBufferQueue.cpp:70-72 | callbacks collected by an abort are told its code and zero bytes |
| QueueTheorems.FirstErrorSticks | core/common/RdmaError.h:41-59 | once a queue has failed, every later state of every run has that first error, refuses every buffer with it, hands out no idle one, and accepts nothing |
| QueueTheorems.FirstErrorIsRecorded | core/common/RdmaBufferQueue.cpp:190-245 | a healthy queue fails exactly on a submission too large for its credit, a recorded credit failure, a failed completion or an abort, with that error |
| QueueTheorems.AbortIsFinal | core/common/RdmaBufferQueue.cpp:37-138 | after an abort nothing is queued and no callback is collected again, every call is refused with the first error, yet completed buffers can still be taken in order |
| QueueAnswers.SubmissionAnswers | core/common/RdmaBufferQueue.cpp:179-217 | a submission is accepted exactly if the queue has not failed, the user holds the buffer and it fits the oldest credit there is; it waits exactly if it needs a credit and there is none; a refusal says why |
| QueueAnswers.CompletionTells | core/common/RdmaBufferQueue.cpp:141-177 | a completion before an abort finishes the oldest submission, and its callback is told the reported code and number of bytes |
| QueueAnswers.LateCompletionIsIgnored | core/common/RdmaBufferQueue.cpp:153-175 | a completion after an abort moves no buffer and collects no callback |
| QueueAnswers.AbortTells | core/common/RdmaBufferQueue.cpp:37-73 | the first abort makes all pending buffers idle in order, takes their callbacks, and tells each its code and zero bytes |
| QueueAnswers.CompletedIsTaken | core/common/RdmaBufferQueue.cpp:101-139 | whatever the status, the oldest completed buffer goes to the user unless the call has timed out |
| QueueAnswers.CompletedAnswers | core/common/RdmaBufferQueue.cpp:101-139 | after every run a healthy queue hands out the next finished buffer; without one it waits if something is unfinished, says that nothing is queued, or times out |
| QueueAnswers.FailedAndEmpty | core/common/RdmaBufferQueue.cpp:126-131 | without a completed buffer a failed queue says its error |
| QueueAnswers.PutBackHandsOutNone | core/common/RdmaBufferQueue.cpp:104-106 | a queue that puts completed buffers back refuses to hand them out |
| QueueAnswers.IdleAnswers | core/common/RdmaBufferQueue.cpp:75-99 | a healthy queue hands out an idle buffer unless the whole pool is elsewhere; then it waits, and after that times out |
| QueueAnswers.IdleServedInTurn | core/common/RdmaBufferQueue.cpp:37-256 | over every run idle buffers are reused in the order in which completions, aborts and releases made them idle |
| QueueAnswers.ReleaseAnswers | core/common/RdmaBufferQueue.cpp:248-256 | a buffer is released exactly if the user holds it, and becomes the last idle one |
| BufferQueues.BufferQueue.constructor | core/common/RdmaBufferQueue.cpp:287-318 | a new queue has all buffers idle, in index order |
| BufferQueues.BufferQueue.QueueBuffer | core/common/RdmaBufferQueue.cpp:179-218 | new state, error code and what to post, with room in every ring it pushes to |
| BufferQueues.BufferQueue.AddCredit | core/common/RdmaBufferQueue.cpp:220-236 | the locked section: new state, error code and what to post |
| BufferQueues.BufferQueue.RecordFailure | core/common/RdmaBufferQueue.cpp:241-245 | records the failure of a credit unless an error came first |
| BufferQueues.BufferQueue.HandleCompletion | core/common/RdmaBufferQueue.cpp:141-177 | new state and the callback to be called |
| BufferQueues.BufferQueue.WaitForIdleBuffer | core/common/RdmaBufferQueue.cpp:75-99 | before, after and at the timeout of a wait: the oldest idle buffer goes to the user, or the error, or a wait |
| BufferQueues.BufferQueue.WaitForCompletedBuffer | core/common/RdmaBufferQueue.cpp:101-139 | before, after and at the timeout of a wait: the oldest completed buffer even after a failure, or the error, or a wait |
| BufferQueues.BufferQueue.ReleaseBuffer | core/common/RdmaBufferQueue.cpp:248-256 | a buffer in the user's hands becomes idle, any other is refused |
| BufferQueues.BufferQueue.Drain | core/common/RdmaBufferQueue.cpp:48-56 | one loop of `Abort` moves a whole ring to idle in order and collects each callback once |
| BufferQueues.BufferQueue.Abort | core/common/RdmaBufferQueue.cpp:37-73 | new state and all callbacks to be called, queued ones first |
| BufferQueues.BufferQueue.SetUsed | core/common/RdmaBuffer.cpp:71-77 | refuses more bytes than the buffer holds |
| BufferQueues.BufferQueue.SetRegion | core/common/RdmaBuffer.cpp:94-99 | an external buffer takes the region's size as its own and as its use |
| ConnectedSessions.ProcessPreConfigureCredits | core/common/RdmaConnectedSessionBase.cpp:145-151 | early credits end up in the queue in order and post nothing |
| ConnectedSessions.ConfigureBuffers | core/common/RdmaConnectedSessionBase.cpp:171-188 | refused if configured or not connected; otherwise a new queue that holds the early credits as if they came now |
| ConnectedSessions.QueueAll | core/common/RdmaConnectedSessionBase.cpp:190-198 | the loop queues and posts every buffer of the pool in order and collects their lengths |
| ConnectedSessions.PostConfigure | core/common/RdmaConnectedSessionBase.cpp:190-208 | every receive is queued and the credit messages announce exactly their lengths, in queue order |
| CreditCodec.BigEndianRoundTrip | core/common/RdmaConnectedSessionBase.cpp:239-242 | every 64-bit number survives big-endian storage |
| CreditCodec.HighestByteFirst | core/common/RdmaConnectedSessionBase.cpp:128-129 | the first byte of a number is the most significant |
| CreditCodec.DecodeEncode | core/common/RdmaConnectedSessionBase.cpp:126-131 | reading a credit message gives back the lengths written |
| CreditCodec.WriteCredits | core/common/RdmaConnectedSessionBase.cpp:234-244 | the loop fills the credit buffer with exactly the encoded lengths |
| CreditCodec.ReadCredits | core/common/RdmaConnectedSessionBase.cpp:126-131 | the loop passes on exactly the decoded lengths |
| CreditCodec.SplitCredits | core/common/RdmaConnectedSessionBase.cpp:199-206 | the loop ends with non-empty messages that fit a credit buffer, and decoding them in order yields all lengths |
| CreditProtocol.AddCreditsToEmpty | core/common/RdmaConnectedSessionBase.cpp:145-151 | processing the early credits of a new queue appends them in order and posts nothing |
| CreditProtocol.SendWhileLive | core/common/RdmaConnectedSessionBase.cpp:246-250 | a send keeps credit conservation, the fit of each message and the stream |
| CreditProtocol.ProcessWhileLive | core/common/RdmaConnectedSessionBase.cpp:108-131 | so does a credit, before and after configuration |
| CreditSteps.ArriveKeeps | core/common/RdmaBuffer.cpp:79-83 | so does an arrival, which fills the oldest receive |
| CreditSteps.RunKeeps | core/common/RdmaConnectedSessionBase.cpp:108-250 | the invariant holds after every run of the two endpoints and both channels |
| CreditTheorems.CreditConservation | core/common/RdmaConnectedSessionBase.cpp:108-151 | until the receiver aborts, queued receive lengths are in order those in flight, available, early, being read, on the wire and unannounced |
| CreditTheorems.ArrivalNeverFails | core/common/RdmaConnectedSessionBase.cpp:190-244 | until the receiver aborts, a message never lands without a posted receive, and the k-th message fits the k-th receive |
| DeliveryTheorems.EndToEndStream | core/common/RdmaBufferQueue.cpp:101-246 | until the receiver aborts, what was delivered, completed, on the wire, about to be posted and waiting is what was submitted, in order unless a message overtook; if the sender aborts only the end is missing |
| DeliveryTheorems.DeliveredIsPrefix | core/common/RdmaBufferQueue.cpp:37-246 | in every run, whoever aborts: what the user got is the beginning of what was submitted if and only if no message overtook in the window or that one is not yet delivered; otherwise it is the beginning with that one moved ahead |
| OvertakingExample.SecondDeliveredFirst | core/common/RdmaBufferQueue.cpp:220-245 | a run from the start after which the user was given the second message and not the first |
| CreditTheorems.CreditRunsAreShort | core/common/RdmaConnectedSessionBase.cpp:122-138 | credit-moving steps in any order end within a bound, and only when nobody waits, the sender has failed or every queued receive is in flight |
| CreditTheorems.LengthsAreRight | core/common/RdmaBuffer.cpp:79-83 | after every run a completed buffer says the length of the message in it |
| CreditTheorems.ArrivalTells | core/common/RdmaBuffer.cpp:79-83 | an arrival completes the oldest receive with the message, and its callback is told success and the message's length |
| CreditTheorems.TakingDelivers | core/common/RdmaBufferQueue.cpp:135-138 | a receiving user who asks is given the message in the oldest completed buffer, whatever the status |
| SessionModel.FreshUntilWrapped | core/api/rdma_api_common.h:26-32 | after every run, however long, the next handle is new if and only if fewer than 2^64 were issued |
| SessionModel.WrappedHandleIsReused | core/api/rdma_api_common.h:29-30 | after 2^64 registrations an open session's handle is issued again |
| SessionModel.HandlesOnlyAdvance | core/api/rdma_api_common.h:26-86 | over every run a handle goes only from open to deferred to closed |
| SessionTheorems.EventIsOwn | core/api/rdma_api_common.h:26-86 | a call changes only the handle it names, and that one as an automaton of its own: open, held back, gone |
| SessionTheorems.LookupFindsOwn | core/api/rdma_api_common.h:33-47 | after every run a lookup finds exactly open handles, and deferred ones if asked, with the session that the handle's own calls produced |
| SessionTheorems.OthersUntouched | core/api/rdma_api_common.h:48-86 | closing or releasing on one handle leaves stage and session of every other as they are |
| SessionTheorems.OpenUntilClosed | core/api/rdma_api_common.h:48-76 | an open handle stays open until its own close |
| SessionTheorems.CloseAnswers | core/api/rdma_api_common.h:48-76 | closing is refused exactly for handles that are not open, and removes exactly the one entry |
| SessionTheorems.ReleaseRefusals | core/api/rdma_api_c.cpp:312-332 | the three refusals in their order, none of which changes anything |
| SessionTheorems.ReleaseOnOpen | core/api/rdma_api_c.cpp:312-332 | on an open session the buffer leaves the user, becomes the last idle one, and the session stays open |
| SessionModel.LeavesWithLastRelease | core/api/rdma_api_c.cpp:312-332 | a deferred session is closed by exactly the release that takes the user's last buffer |
| SessionModel.CloseDefers | core/api/rdma_api_common.h:48-76 | closing defers exactly if asked to while the user holds a buffer, and keeps those buffers |
| SessionModel.DeferredClose | core/api/rdma_api_common.h:33-86 | tables are disjoint, deferred sessions have a buffer outstanding, and a closed handle is refused for ever |
| SessionManagers.SessionManager.RegisterSession | core/api/rdma_api_common.h:26-32 | issues the counter's value and enters the session |
| SessionManagers.SessionManager.GetSession | core/api/rdma_api_common.h:33-47 | finds open sessions, and deferred ones only if asked |
| SessionManagers.SessionManager.DestroySession | core/api/rdma_api_common.h:48-76 | closes or defers, or says that the handle is invalid |
| SessionManagers.SessionManager.CheckDeferredSessionDestructionReady | core/api/rdma_api_common.h:78-86 | drops a deferred session once nothing is outstanding |
| SessionManagers.SessionManager.ReleaseUserBufferRegionToIdle | core/api/rdma_api_c.cpp:312-332 | refuses a missing or foreign region; otherwise releases it on an open or deferred session and closes the latter with the last one |

## Left out

- RequestLists.RequestList.AddAtTail: the cached totals are unbounded numbers; more than 2^27 requests in one list would be needed to wrap them in 32 bits.
- AccessManagers.AccessManager.constructor: the counters of unused request memory are taken as zero; the source leaves them unset, which affects only the totals of the list of unused requests, and nothing reads those. Running out of memory is not modelled.
- AccessManagers.AccessManager.SatisfyRequest: ends where the caller waits, because other threads act then; `WaitForSignal` and `ServeHead` are the rest.
- AccessTheorems.ReleaseAllAcquireAll: the two loops are covered on runs and not as methods, because other threads act between their rounds.
- BufferQueues.BufferQueue.WaitForIdleBuffer: nothing is claimed about when a wait ends; `ReleaseBuffer` notifies nobody.
- BufferQueues.BufferQueue.ReleaseBuffer: user buffers form a sequence instead of an intrusive list with its own links.
- SessionManagers.SessionManager.DestroySession: sessions are values in the two dictionaries, not shared objects; waiting for the last reference is not modelled.
- `YieldExclusive` and the yielded-to flag: private and marked unused in the source.
- The reference count and its event: they change separately, so no invariant between them holds step by step.
- Flow control of the credit messages themselves: the 100 credit receives are not gated by credits, so no bound follows.
- Failed receive completions in the two-endpoint system: a lossless wire has none before an abort; one queue by itself covers them.
- External buffers of `ConfigureExternalBuffer`: the same queue with empty buffers that are put back on completion.
- Verbs, queue pair set-up, connection management, memory registration, polling, threads and their priorities: calls into foreign code.
- Addresses, interface enumeration, properties, connection data, error texts and the other C wrappers: parsing, tables and argument checks without state.
