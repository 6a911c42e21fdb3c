/**
 The buffer queue object: four rings, the list of buffers in the user's hands
 and the buffers themselves. Each method is one `queueLock` section and does
 what the value model says; every ring has room because of the pool invariant.
 */
module BufferQueues {
  import opened QueueModel
  import opened CircularFifos
  import opened Sequences
  import QueueRuns
  import QueueTheorems

  /** Every element is a buffer of the pool, and none occurs twice. */
  ghost predicate OnceEach(line: seq<BufferId>, n: nat) {
    && (forall i :: 0 <= i < |line| ==> line[i] < n)
    && (forall i, j :: 0 <= i < j < |line| ==> line[i] != line[j])
  }

  /** The callbacks of the buffers in a line are gone; nothing else has changed. */
  ghost predicate Cleared(was: seq<Buffer>, now: seq<Buffer>, line: seq<BufferId>) {
    && |now| == |was|
    && forall i :: 0 <= i < |was| ==> now[i] == if i in line then was[i].(callback := None) else was[i]
  }

  lemma ClearedNext(was: seq<Buffer>, now: seq<Buffer>, done: seq<BufferId>, b: BufferId)
    requires Cleared(was, now, done) && b < |was| && b !in done
    ensures Cleared(was, now[b := now[b].(callback := None)], done + [b])
    ensures now[b] == was[b]
  {
  }

  lemma {:induction false} FireAllConcat(q: Queue, bs: seq<BufferId>, cs: seq<BufferId>, code: int)
    ensures FireAll(q, bs + cs, code) == FireAll(q, bs, code) + FireAll(q, cs, code)
  {
    if bs == [] {
      assert bs + cs == cs;
    } else {
      assert (bs + cs)[1..] == bs[1..] + cs;
      FireAllConcat(q, bs[1..], cs, code);
    }
  }

  lemma OnceEachNext(line: seq<BufferId>, n: nat, done: seq<BufferId>, b: BufferId, rest: seq<BufferId>)
    requires OnceEach(line, n) && line == done + ([b] + rest)
    ensures b < n && b !in done && line == (done + [b]) + rest
  {
    assert line[|done|] == b;
    assert forall i :: 0 <= i < |done| ==> line[i] == done[i];
  }

  lemma FireNext(q: Queue, done: seq<BufferId>, b: BufferId, code: int)
    ensures FireAll(q, done + [b], code) == FireAll(q, done, code) + Fire(q, b, code, 0)
  {
    FireAllConcat(q, done, [b], code);
  }

  lemma OccurTwice(s: seq<BufferId>, i: nat, j: nat)
    requires i < j < |s| && s[i] == s[j]
    ensures QueueRuns.Occurrences(s, s[i]) >= 2
  {
    QueueRuns.OccursConcat(s[..j], s[j..], s[i]);
    assert s == s[..j] + s[j..] && s[..j][i] == s[i] && s[j..][0] == s[i];
    QueueRuns.OccursIn(s[..j], s[i]);
    QueueRuns.OccursIn(s[j..], s[i]);
  }

  lemma LineIsOnceEach(line: seq<BufferId>, n: nat)
    requires forall b: BufferId :: QueueRuns.Occurrences(line, b) <= if b < n then 1 else 0
    ensures OnceEach(line, n)
  {
    forall i | 0 <= i < |line|
      ensures line[i] < n
    {
      QueueRuns.OccursIn(line, line[i]);
    }
    forall i, j | 0 <= i < j < |line|
      ensures line[i] != line[j]
    {
      if line[i] == line[j] {
        OccurTwice(line, i, j);
      }
    }
  }

  lemma LinesOnceEach(q: Queue)
    requires QueueRuns.Partitioned(q)
    ensures OnceEach(q.queued, |q.buffers|) && OnceEach(q.waiting, |q.buffers|)
    ensures forall b :: b in q.waiting ==> b !in q.queued
  {
    forall b: BufferId
      ensures QueueRuns.Occurrences(q.queued, b) <= if b < |q.buffers| then 1 else 0
      ensures QueueRuns.Occurrences(q.waiting, b) <= if b < |q.buffers| then 1 else 0
      ensures b in q.waiting ==> b !in q.queued
    {
      assert QueueRuns.Places(q, b) == if b < |q.buffers| then 1 else 0;
      QueueRuns.OnePlace(q, b);
    }
    LineIsOnceEach(q.queued, |q.buffers|);
    LineIsOnceEach(q.waiting, |q.buffers|);
  }

  lemma {:induction false} FireAllFrame(q: Queue, q': Queue, bs: seq<BufferId>, code: int)
    requires forall b :: b in bs ==> At(q', b) == At(q, b)
    ensures FireAll(q', bs, code) == FireAll(q, bs, code)
  {
    if bs != [] {
      assert bs[0] in bs;
      FireAllFrame(q, q', bs[1..], code);
    }
  }

  /** Clearing the queued buffers first does not change what the waiting ones carry. */
  lemma ClearedTwice(q: Queue, middle: seq<Buffer>, now: seq<Buffer>, code: int)
    requires Cleared(q.buffers, middle, q.queued) && Cleared(middle, now, q.waiting)
    requires forall b :: b in q.waiting ==> b !in q.queued
    ensures now == ClearCallbacks(q.buffers, q.queued + q.waiting)
    ensures FireAll(q.(buffers := middle), q.waiting, code) == FireAll(q, q.waiting, code)
    ensures FireAll(q, q.queued + q.waiting, code) == FireAll(q, q.queued, code) + FireAll(q, q.waiting, code)
  {
    FireAllFrame(q, q.(buffers := middle), q.waiting, code);
    FireAllConcat(q, q.queued, q.waiting, code);
  }

  /** What one round of the loops of `Abort` does to its invariant. */
  lemma DrainNext(q: Queue, line: seq<BufferId>, before: seq<BufferId>, done: seq<BufferId>, b: BufferId,
                  rest: seq<BufferId>, left: seq<BufferId>, now: seq<Buffer>, code: int)
    requires OnceEach(line, |q.buffers|) && Cleared(q.buffers, now, done) && line == done + left
    requires left != [] && b == left[0] && rest == left[1..]
    ensures b < |q.buffers| && line == (done + [b]) + rest && now[b] == q.buffers[b]
    ensures Cleared(q.buffers, now[b := now[b].(callback := None)], done + [b])
    ensures FireAll(q, done + [b], code) == FireAll(q, done, code) + Fire(q, b, code, 0)
    ensures before + (done + [b]) == (before + done) + [b]
  {
    assert left == [b] + rest;
    OnceEachNext(line, |q.buffers|, done, b, rest);
    ClearedNext(q.buffers, now, done, b);
    FireNext(q, done, b, code);
    Reassociate(before, done, [b]);
  }

  class BufferQueue {
    const direction: Direction
    const ignoreCredits: bool
    const putBack: bool
    var buffers: seq<Buffer>
    const idle: CircularFifo<BufferId>
    const queued: CircularFifo<BufferId>
    const completed: CircularFifo<BufferId>
    const waiting: CircularFifo<BufferId>
    var user: seq<BufferId>
    var credits: seq<Size>
    var status: int
    var aborted: bool

    /** The rings share no memory and each can hold the whole pool. */
    ghost predicate Apart()
      reads this, idle, queued, completed, waiting
    {
      && idle != queued && idle != completed && idle != waiting
      && queued != completed && queued != waiting && completed != waiting
      && idle.buffer != queued.buffer && idle.buffer != completed.buffer && idle.buffer != waiting.buffer
      && queued.buffer != completed.buffer && queued.buffer != waiting.buffer && completed.buffer != waiting.buffer
      && idle.Valid() && queued.Valid() && completed.Valid() && waiting.Valid()
      && idle.buffer.Length == queued.buffer.Length == completed.buffer.Length == waiting.buffer.Length == |buffers|
    }

    ghost function Model(): Queue
      requires Apart()
      reads this, idle, queued, completed, waiting, idle.buffer, queued.buffer, completed.buffer, waiting.buffer
    {
      Queue(direction, ignoreCredits, putBack, buffers, idle.Contents(), user, waiting.Contents(), queued.Contents(),
            completed.Contents(), credits, status, aborted)
    }

    ghost predicate Valid()
      reads this, idle, queued, completed, waiting, idle.buffer, queued.buffer, completed.buffer, waiting.buffer
    {
      Apart() && QueueRuns.Partitioned(Model())
    }

    /** A queue of buffers of the given sizes, all idle: `numBuffers` equal ones, or empty external regions. */
    constructor (direction: Direction, ignoreCredits: bool, putBack: bool, sizes: seq<Size>)
      ensures Valid() && Model() == NewQueue(direction, ignoreCredits, putBack, sizes)
      ensures fresh(idle) && fresh(queued) && fresh(completed) && fresh(waiting)
      ensures fresh(idle.buffer) && fresh(queued.buffer) && fresh(completed.buffer) && fresh(waiting.buffer)
    {
      this.direction, this.ignoreCredits, this.putBack := direction, ignoreCredits, putBack;
      buffers, user, credits, status, aborted := [], [], [], SUCCESS, false;
      idle := new CircularFifo(0);
      queued := new CircularFifo(0);
      completed := new CircularFifo(0);
      waiting := new CircularFifo(0);
      new;
      SetUp(sizes);
    }

    method SetUp(sizes: seq<Size>)
      requires Apart() && user == [] && credits == [] && status == SUCCESS && !aborted
      modifies this`buffers, idle, queued, completed, waiting
      ensures Valid() && Model() == NewQueue(direction, ignoreCredits, putBack, sizes)
      ensures fresh(idle.buffer) && fresh(queued.buffer) && fresh(completed.buffer) && fresh(waiting.buffer)
    {
      AllocateBufferQueues(|sizes|);
      FillPool(sizes);
      QueueRuns.NewQueueOk(direction, ignoreCredits, putBack, sizes);
    }

    method AllocateBufferQueues(numBuffers: nat)
      requires Apart()
      modifies this`buffers, idle, queued, completed, waiting
      ensures Apart() && |buffers| == numBuffers
      ensures idle.Contents() == queued.Contents() == completed.Contents() == waiting.Contents() == []
      ensures fresh(idle.buffer) && fresh(queued.buffer) && fresh(completed.buffer) && fresh(waiting.buffer)
    {
      buffers := seq(numBuffers, _ => Buffer(0, 0, None));
      idle.Reallocate(numBuffers);
      queued.Reallocate(numBuffers);
      completed.Reallocate(numBuffers);
      waiting.Reallocate(numBuffers);
    }

    method FillPool(sizes: seq<Size>)
      requires Apart() && |buffers| == |sizes| && idle.Contents() == []
      modifies this`buffers, idle`size, idle.buffer
      ensures Apart() && idle.Contents() == Pool(|sizes|)
      ensures buffers == seq(|sizes|, i requires 0 <= i < |sizes| => Buffer(sizes[i], 0, None))
    {
      for index := 0 to |sizes|
        invariant idle.Valid() && idle.Contents() == Pool(index)
        invariant |buffers| == |sizes| && forall i :: 0 <= i < index ==> buffers[i] == Buffer(sizes[i], 0, None)
      {
        buffers := buffers[index := Buffer(sizes[index], 0, None)];
        idle.Push(index);
      }
    }

    method QueueBuffer(b: BufferId) returns (code: int, post: Option<BufferId>)
      requires Valid()
      modifies this, queued`size, queued.buffer, waiting`size, waiting.buffer
      ensures Valid()
      ensures Posting(Model(), code, post) == QueueModel.QueueBuffer(old(Model()), b)
    {
      ghost var q := Model();
      QueueTheorems.PoolSize(q);
      QueueRuns.SubmitMoves(q, b);
      QueueRuns.OnePlace(q, b);
      post := None;
      if status != SUCCESS {
        return status, None;
      }
      if b !in user {
        return INVALID_OPERATION, None;
      }
      if direction == Send && !ignoreCredits {
        if |credits| > 0 {
          if buffers[b].used > credits[0] {
            status := Assign(status, SEND_TOO_LARGE);
            return SEND_TOO_LARGE, None;
          }
          post := Some(b);
          queued.Push(b);
          credits := credits[1..];
        } else {
          waiting.Push(b);
        }
      } else {
        post := Some(b);
        queued.Push(b);
      }
      user := Unlink(user, b);
      code := SUCCESS;
    }

    method ReleaseBuffer(b: BufferId) returns (code: int)
      requires Valid()
      modifies this, idle`size, idle.buffer
      ensures Valid()
      ensures Posting(Model(), code, None) == QueueModel.ReleaseBuffer(old(Model()), b)
    {
      ghost var q := Model();
      QueueTheorems.PoolSize(q);
      QueueRuns.ReleaseMoves(q, b);
      if b !in user {
        return INVALID_OPERATION;
      }
      user := Unlink(user, b);
      idle.Push(b);
      code := SUCCESS;
    }

    /** Adds a credit; the oldest waiting buffer then uses the oldest credit, if it fits. If it does not, the caller
        goes on to `RecordFailure`, without the lock. */
    method AddCredit(credit: Size) returns (code: int, post: Option<BufferId>)
      requires Valid()
      modifies this, queued`size, queued.buffer, waiting`head, waiting`size
      ensures Valid()
      ensures Posting(Model(), code, post) == QueueModel.AddCredit(old(Model()), credit)
    {
      ghost var q := Model();
      QueueTheorems.PoolSize(q);
      QueueRuns.CreditMoves(q, credit);
      credits := credits + [credit];
      if waiting.size == 0 {
        return SUCCESS, None;
      }
      var place := waiting.Front();
      var b := waiting.buffer[place];
      QueueRuns.OnePlace(q, b);
      if buffers[b].used > credits[0] {
        return SEND_TOO_LARGE, None;
      }
      waiting.Pop();
      queued.Push(b);
      credits := credits[1..];
      return SUCCESS, Some(b);
    }

    method RecordFailure()
      requires Valid()
      modifies `status
      ensures Valid() && Model() == QueueModel.RecordFailure(old(Model()))
    {
      ghost var q := Model();
      status := Assign(status, SEND_TOO_LARGE);
      QueueRuns.SameLists(q, Model());
    }

    /** `GetAndClearClearCallbackData`. */
    method TakeCallback(b: BufferId) returns (callback: Option<Callback>)
      requires b < |buffers|
      modifies this`buffers
      ensures callback == old(buffers[b].callback)
      ensures buffers == old(buffers)[b := old(buffers[b]).(callback := None)]
    {
      callback := buffers[b].callback;
      buffers := buffers[b := buffers[b].(callback := None)];
    }

    /** The oldest queued buffer becomes completed or, for senders and external buffers, idle. */
    method MoveCompleted(b: BufferId)
      requires Apart() && queued.size > 0 && queued.Contents()[0] == b
      requires idle.size < |buffers| && completed.size < |buffers|
      modifies queued`head, queued`size, idle`size, idle.buffer, completed`size, completed.buffer
      ensures Apart() && queued.Contents() == old(queued.Contents())[1..]
      ensures waiting.Contents() == old(waiting.Contents())
      ensures idle.Contents() == if putBack then old(idle.Contents()) + [b] else old(idle.Contents())
      ensures completed.Contents() == if putBack then old(completed.Contents()) else old(completed.Contents()) + [b]
    {
      queued.Pop();
      if putBack {
        idle.Push(b);
      } else {
        completed.Push(b);
      }
    }

    /** A completion reported by the queue pair. The source asserts that it concerns the oldest queued buffer. */
    method HandleCompletion(b: BufferId, bytes: Size, code: int) returns (fired: seq<Fired>)
      requires Valid() && b < |buffers|
      requires !aborted ==> queued.size > 0 && queued.Contents()[0] == b
      modifies this, queued`head, queued`size, idle`size, idle.buffer, completed`size, completed.buffer
      ensures Valid()
      ensures Firing(Model(), fired) == QueueModel.HandleCompletion(old(Model()), b, bytes, code)
    {
      ghost var q := Model();
      QueueTheorems.PoolSize(q);
      QueueRuns.CompletionMoves(q, b, bytes, code);
      buffers := buffers[b := buffers[b].(used := bytes)];
      if aborted {
        return [];
      }
      var callback := TakeCallback(b);
      assert buffers == q.buffers[b := q.buffers[b].(used := bytes, callback := None)];
      MoveCompleted(b);
      if code != SUCCESS {
        status := Assign(status, code);
      }
      fired := if callback.Some? then [Fired(callback.value, code, bytes)] else [];
      assert Model() == QueueModel.HandleCompletion(q, b, bytes, code).q;
    }

    /** `WaitForIdleBuffer`: `phase` says where the call stands, `waits` asks for a wait. */
    method WaitForIdleBuffer(phase: Phase) returns (taken: Option<BufferId>, code: int, waits: bool)
      requires Valid()
      modifies this, idle`head, idle`size
      ensures Valid()
      ensures match TakeIdle(old(Model()), phase)
              case Taken(q, b) => Model() == q && taken == Some(b) && code == SUCCESS && !waits
              case Failed(e) => Model() == old(Model()) && taken == None && code == e && !waits
              case MustWait => Model() == old(Model()) && taken == None && waits
    {
      QueueRuns.TakeMoves(Model(), phase);
      if phase.TimedOut? {
        return None, TIMEOUT, false;
      }
      if phase.Before? && idle.size == 0 && status == SUCCESS {
        return None, SUCCESS, true;
      }
      if status != SUCCESS {
        return None, status, false;
      }
      if idle.size == 0 {
        return None, TIMEOUT, false;
      }
      var place := idle.Front();
      var b := idle.buffer[place];
      idle.Pop();
      user := user + [b];
      return Some(b), SUCCESS, false;
    }

    method WaitForCompletedBuffer(phase: Phase) returns (taken: Option<BufferId>, code: int, waits: bool)
      requires Valid()
      modifies this, completed`head, completed`size
      ensures Valid()
      ensures match TakeCompleted(old(Model()), phase)
              case Taken(q, b) => Model() == q && taken == Some(b) && code == SUCCESS && !waits
              case Failed(e) => Model() == old(Model()) && taken == None && code == e && !waits
              case MustWait => Model() == old(Model()) && taken == None && waits
    {
      QueueRuns.TakeMoves(Model(), phase);
      if putBack {
        return None, INVALID_OPERATION, false;
      }
      if phase.TimedOut? {
        return None, TIMEOUT, false;
      }
      if phase.Before? && completed.size == 0 && status == SUCCESS {
        if queued.size == 0 && waiting.size == 0 {
          return None, NO_BUFFERS_QUEUED, false;
        }
        return None, SUCCESS, true;
      }
      if status != SUCCESS && completed.size == 0 {
        return None, status, false;
      }
      if completed.size == 0 {
        return None, TIMEOUT, false;
      }
      var place := completed.Front();
      var b := completed.buffer[place];
      completed.Pop();
      user := user + [b];
      return Some(b), SUCCESS, false;
    }

    /** One round of the loops of `Abort`: the buffer that `front` refers to is still good after `pop`. */
    method DrainOne(ring: CircularFifo<BufferId>) returns (callback: Option<Callback>)
      requires Apart() && (ring == queued || ring == waiting) && ring.size > 0
      requires ring.Contents()[0] < |buffers| && idle.size < |buffers|
      modifies this`buffers, ring`head, ring`size, idle`size, idle.buffer
      ensures Apart() && ring.Contents() == old(ring.Contents())[1..]
      ensures idle.Contents() == old(idle.Contents()) + [old(ring.Contents())[0]]
      ensures var b := old(ring.Contents())[0];
              callback == old(buffers)[b].callback && buffers == old(buffers)[b := old(buffers)[b].(callback := None)]
    {
      var place := ring.Front();
      callback := TakeCallback(ring.buffer[place]);
      ring.Pop();
      idle.Push(ring.buffer[place]);
    }

    /** One of the two loops of `Abort`: makes all buffers of a ring idle and collects the callbacks they carry. */
    method Drain(ring: CircularFifo<BufferId>, code: int, ghost q: Queue) returns (fired: seq<Fired>)
      requires Apart() && (ring == queued || ring == waiting) && q.buffers == buffers
      requires OnceEach(ring.Contents(), |buffers|) && idle.size + ring.size <= |buffers|
      modifies this`buffers, ring`head, ring`size, idle`size, idle.buffer
      ensures Apart() && ring.Contents() == [] && idle.Contents() == old(idle.Contents()) + old(ring.Contents())
      ensures Cleared(q.buffers, buffers, old(ring.Contents()))
      ensures fired == FireAll(q, old(ring.Contents()), code)
    {
      ghost var line, before := ring.Contents(), idle.Contents();
      ghost var done: seq<BufferId> := [];
      fired := [];
      while ring.size > 0
        invariant Apart() && line == done + ring.Contents() && idle.Contents() == before + done
        invariant Cleared(q.buffers, buffers, done) && fired == FireAll(q, done, code)
        decreases ring.size
      {
        ghost var b, rest := ring.Contents()[0], ring.Contents()[1..];
        DrainNext(q, line, before, done, b, rest, ring.Contents(), buffers, code);
        var callback := DrainOne(ring);
        if callback.Some? {
          fired := fired + [Fired(callback.value, code, 0)];
        }
        done := done + [b];
      }
      assert done + [] == done;
    }

    /** Both loops of `Abort`. */
    method DrainAll(code: int, ghost q: Queue) returns (fired: seq<Fired>)
      requires Valid() && q == Model()
      modifies this`buffers, queued`head, queued`size, waiting`head, waiting`size, idle`size, idle.buffer
      ensures Apart() && queued.Contents() == [] && waiting.Contents() == [] && completed.Contents() == q.completed
      ensures idle.Contents() == q.idle + (q.queued + q.waiting)
      ensures buffers == ClearCallbacks(q.buffers, q.queued + q.waiting)
      ensures fired == FireAll(q, q.queued + q.waiting, code)
    {
      QueueTheorems.PoolSize(q);
      LinesOnceEach(q);
      fired := Drain(queued, code, q);
      ghost var middle := buffers;
      assert waiting.Contents() == q.waiting && completed.Contents() == q.completed;
      var more := Drain(waiting, code, q.(buffers := middle));
      ClearedTwice(q, middle, buffers, code);
      fired := fired + more;
      Reassociate(q.idle, q.queued, q.waiting);
    }

    method Abort(code: int) returns (fired: seq<Fired>)
      requires Valid()
      modifies this, queued`head, queued`size, waiting`head, waiting`size, idle`size, idle.buffer
      ensures Valid()
      ensures Firing(Model(), fired) == QueueModel.Abort(old(Model()), code)
    {
      if aborted {
        return [];
      }
      ghost var q := Model();
      QueueRuns.AbortMoves(q, code);
      fired := DrainAll(code, q);
      aborted, status := true, Assign(status, code);
      assert Model() == QueueModel.Abort(q, code).q;
    }

    /** `RdmaBuffer::SetUsed`; it does not look where the buffer is. */
    method SetUsed(b: BufferId, size: Size) returns (code: int)
      requires Valid() && b < |buffers|
      modifies this`buffers
      ensures Valid()
      ensures var q := old(Model());
              if size > At(q, b).size then code == INVALID_SIZE && Model() == q
              else code == SUCCESS && Model() == Set(q, b, At(q, b).(used := size))
    {
      ghost var q := Model();
      QueueRuns.PrepareMoves(q, b, At(q, b).(used := size));
      if size > buffers[b].size {
        return INVALID_SIZE;
      }
      buffers := buffers[b := buffers[b].(used := size)];
      code := SUCCESS;
    }

    /** `SetBufferRegion` and `SetCompletionCallback`, as applied to an external buffer before it is queued. */
    method SetRegion(b: BufferId, size: Size, callback: Option<Callback>)
      requires Valid() && b < |buffers|
      modifies this`buffers
      ensures Valid() && Model() == Set(old(Model()), b, Buffer(size, size, callback))
    {
      ghost var q := Model();
      QueueRuns.PrepareMoves(q, b, Buffer(size, size, callback));
      buffers := buffers[b := Buffer(size, size, callback)];
    }
  }
}
