/**
 A buffer queue as a value: what each `queueLock` section of `RdmaBufferQueue`
 does to the pool of buffers. A buffer is named by its index in the pool.
 */
module QueueModel {

  type BufferId = nat
  type Callback = nat

  /** `uint64_t`, and `size_t` on a 64-bit machine. */
  type Size = n: nat | n < 0x1_0000_0000_0000_0000

  const SUCCESS: int := 0
  const TIMEOUT: int := -734001
  const INVALID_OPERATION: int := -734004
  const NO_BUFFERS_QUEUED: int := -734005
  const INVALID_SIZE: int := -734007
  const OPERATION_CANCELLED: int := -734011
  const NOT_CONNECTED: int := -734014
  const ALREADY_CONFIGURED: int := -734016
  const SEND_TOO_LARGE: int := -734028

  datatype Option<T> = None | Some(value: T)

  datatype Direction = Send | Receive

  datatype Buffer = Buffer(size: Size, used: Size, callback: Option<Callback>)

  /** What a completion callback is told. */
  datatype Fired = Fired(callback: Callback, code: int, bytes: Size)

  /** `putBack` says that completed buffers become idle at once. `status` is the first error, or success. */
  datatype Queue = Queue(
    direction: Direction,
    ignoreCredits: bool,
    putBack: bool,
    buffers: seq<Buffer>,
    idle: seq<BufferId>,
    user: seq<BufferId>,
    waiting: seq<BufferId>,
    queued: seq<BufferId>,
    completed: seq<BufferId>,
    credits: seq<Size>,
    status: int,
    aborted: bool)

  /** A call that may post a buffer to the queue pair once the lock is released. */
  datatype Posting = Posting(q: Queue, code: int, post: Option<BufferId>)

  /** Where a call that may wait stands: at its start, woken up, or past its timeout. */
  datatype Phase = Before | Woken | TimedOut

  /** A call that hands a buffer to the user, fails, or has to wait for one. */
  datatype Taking = Taken(q: Queue, b: BufferId) | Failed(code: int) | MustWait

  /** A call that fires completion callbacks once the lock is released. */
  datatype Firing = Firing(q: Queue, fired: seq<Fired>)

  /** Removes the first occurrence of b (unlinking a buffer from the user list). */
  function Unlink(s: seq<BufferId>, b: BufferId): seq<BufferId> {
    if s == [] then [] else if s[0] == b then s[1..] else [s[0]] + Unlink(s[1..], b)
  }

  /** `RdmaError::Assign`: the first error stays. */
  function Assign(status: int, code: int): int {
    if status == SUCCESS then code else status
  }

  /** The buffer of index b. */
  function At(q: Queue, b: BufferId): Buffer {
    if b < |q.buffers| then q.buffers[b] else Buffer(0, 0, None)
  }

  function Set(q: Queue, b: BufferId, buffer: Buffer): Queue {
    if b < |q.buffers| then q.(buffers := q.buffers[b := buffer]) else q
  }

  /** A new queue with every buffer idle. */
  function NewQueue(direction: Direction, ignoreCredits: bool, putBack: bool, sizes: seq<Size>): Queue {
    Queue(direction, ignoreCredits, putBack,
          seq(|sizes|, i requires 0 <= i < |sizes| => Buffer(sizes[i], 0, None)),
          Pool(|sizes|), [], [], [], [], [], SUCCESS, false)
  }

  function Pool(n: nat): seq<BufferId> {
    seq(n, i => i)
  }

  /** `QueueBuffer`, the locked part. */
  function QueueBuffer(q: Queue, b: BufferId): Posting {
    if q.status != SUCCESS then Posting(q, q.status, None)
    else if b !in q.user then Posting(q, INVALID_OPERATION, None)
    else
      var q' := q.(user := Unlink(q.user, b));
      if q.direction == Send && !q.ignoreCredits then
        if q.credits == [] then Posting(q'.(waiting := q.waiting + [b]), SUCCESS, None)
        else if At(q, b).used > q.credits[0] then
          Posting(q.(status := Assign(q.status, SEND_TOO_LARGE)), SEND_TOO_LARGE, None)
        else Posting(q'.(queued := q.queued + [b], credits := q.credits[1..]), SUCCESS, Some(b))
      else Posting(q'.(queued := q.queued + [b]), SUCCESS, Some(b))
  }

  /** `easyrdma_QueueBufferRegion`: sets the size, which may be refused, then the callback, and only then looks whether
      the buffer is in the user's hands. */
  function QueueRegion(q: Queue, b: BufferId, used: Size, callback: Option<Callback>): Posting {
    if used > At(q, b).size then Posting(q, INVALID_SIZE, None)
    else QueueBuffer(Set(q, b, At(q, b).(used := used, callback := callback)), b)
  }

  /** `AddCredit`, the locked part. A failure is recorded later, by `RecordFailure`. */
  function AddCredit(q: Queue, credit: Size): Posting {
    var credits := q.credits + [credit];
    if q.waiting == [] then Posting(q.(credits := credits), SUCCESS, None)
    else
      var b := q.waiting[0];
      if At(q, b).used > credits[0] then
        Posting(q.(credits := credits), SEND_TOO_LARGE, None)
      else
        Posting(q.(waiting := q.waiting[1..], queued := q.queued + [b], credits := credits[1..]), SUCCESS, Some(b))
  }

  /** What `AddCredit` does about its failure once the lock is released. */
  function RecordFailure(q: Queue): Queue {
    q.(status := Assign(q.status, SEND_TOO_LARGE))
  }

  /** The callback with which a buffer is completed, if it has one. */
  function Fire(q: Queue, b: BufferId, code: int, bytes: Size): seq<Fired> {
    match At(q, b).callback case None => [] case Some(c) => [Fired(c, code, bytes)]
  }

  function FireAll(q: Queue, bs: seq<BufferId>, code: int): seq<Fired> {
    if bs == [] then [] else Fire(q, bs[0], code, 0) + FireAll(q, bs[1..], code)
  }

  function ClearCallbacks(buffers: seq<Buffer>, bs: seq<BufferId>): seq<Buffer> {
    seq(|buffers|, i requires 0 <= i < |buffers| =>
      if i in bs then buffers[i].(callback := None) else buffers[i])
  }

  /** `RdmaBuffer::HandleCompletion` and the locked part of `RdmaBufferQueue::HandleCompletion`.
      The source insists that the completed buffer is the oldest queued one. */
  function HandleCompletion(q: Queue, b: BufferId, bytes: Size, code: int): Firing
    requires !q.aborted ==> q.queued != [] && q.queued[0] == b
  {
    if q.aborted then Firing(Set(q, b, At(q, b).(used := bytes)), [])
    else
      var q' := Set(q, b, At(q, b).(used := bytes, callback := None))
                .(queued := q.queued[1..],
                  status := if code != SUCCESS then Assign(q.status, code) else q.status);
      Firing(if q.putBack then q'.(idle := q.idle + [b]) else q'.(completed := q.completed + [b]),
             Fire(q, b, code, bytes))
  }

  /** `Abort`: everything queued or waiting becomes idle and its callbacks fire with the error. */
  function Abort(q: Queue, code: int): Firing {
    if q.aborted then Firing(q, [])
    else
      var gone := q.queued + q.waiting;
      Firing(q.(aborted := true, status := Assign(q.status, code), queued := [], waiting := [],
                idle := q.idle + gone, buffers := ClearCallbacks(q.buffers, gone)),
             FireAll(q, gone, code))
  }

  /** `WaitForIdleBuffer`. A wait that times out fails without another look. */
  function TakeIdle(q: Queue, phase: Phase): Taking {
    if phase.TimedOut? then Failed(TIMEOUT)
    else if phase.Before? && q.idle == [] && q.status == SUCCESS then MustWait
    else if q.status != SUCCESS then Failed(q.status)
    else if q.idle == [] then Failed(TIMEOUT)
    else Taken(q.(idle := q.idle[1..], user := q.user + [q.idle[0]]), q.idle[0])
  }

  /** `WaitForCompletedBuffer`. */
  function TakeCompleted(q: Queue, phase: Phase): Taking {
    if q.putBack then Failed(INVALID_OPERATION)
    else if phase.TimedOut? then Failed(TIMEOUT)
    else if phase.Before? && q.completed == [] && q.status == SUCCESS then
      if q.queued == [] && q.waiting == [] then Failed(NO_BUFFERS_QUEUED) else MustWait
    else if q.completed == [] then
      Failed(if q.status != SUCCESS then q.status else TIMEOUT)
    else Taken(q.(completed := q.completed[1..], user := q.user + [q.completed[0]]), q.completed[0])
  }

  /** `ReleaseBuffer`. */
  function ReleaseBuffer(q: Queue, b: BufferId): Posting {
    if b !in q.user then Posting(q, INVALID_OPERATION, None)
    else Posting(q.(user := Unlink(q.user, b), idle := q.idle + [b]), SUCCESS, None)
  }
}
