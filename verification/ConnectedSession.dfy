/**
 Configuring a connected session: creating its transfer queue, passing on the
 credits that came too early, and queueing and announcing all receives.
 */
module ConnectedSessions {
  import opened QueueModel
  import opened BufferQueues
  import opened CreditCodec

  /** `ProcessPreConfigureCredits`: a credit that came too early counts as if it came now. */
  method ProcessPreConfigureCredits(transferBuffers: BufferQueue, preConfigureCredits: seq<Size>)
    requires transferBuffers.Valid() && transferBuffers.waiting.Contents() == []
    modifies transferBuffers, transferBuffers.queued`size, transferBuffers.queued.buffer,
             transferBuffers.waiting`head, transferBuffers.waiting`size
    ensures transferBuffers.Valid()
    ensures var q := old(transferBuffers.Model());
            transferBuffers.Model() == q.(credits := q.credits + preConfigureCredits)
  {
    ghost var q := transferBuffers.Model();
    ghost var done: seq<Size> := [];
    var left := preConfigureCredits;
    while |left| > 0
      invariant transferBuffers.Valid() && done + left == preConfigureCredits
      invariant transferBuffers.Model() == q.(credits := q.credits + done)
    {
      assert (done + [left[0]]) + left[1..] == done + left;
      assert q.credits + (done + [left[0]]) == (q.credits + done) + [left[0]];
      var code, post := transferBuffers.AddCredit(left[0]);
      done := done + [left[0]];
      left := left[1..];
    }
    assert done == preConfigureCredits;
  }

  /** `ConfigureBuffers`, on a session whose queue is `current`: refused if it has one or is not connected. */
  method ConfigureBuffers(current: BufferQueue?, connected: bool, direction: Direction, sizes: seq<Size>,
                          preConfigureCredits: seq<Size>)
    returns (transferBuffers: BufferQueue?, code: int)
    ensures code == if current != null then ALREADY_CONFIGURED else if !connected then NOT_CONNECTED else SUCCESS
    ensures code != SUCCESS ==> transferBuffers == current
    ensures code == SUCCESS ==>
              && transferBuffers != null && fresh(transferBuffers) && transferBuffers.Valid()
              && transferBuffers.Model() ==
                 NewQueue(direction, false, direction == Send, sizes).(credits := preConfigureCredits)
  {
    if current != null {
      return current, ALREADY_CONFIGURED;
    }
    if !connected {
      return null, NOT_CONNECTED;
    }
    var queue := new BufferQueue(direction, false, direction == Send, sizes);
    ProcessPreConfigureCredits(queue, preConfigureCredits);
    assert [] + preConfigureCredits == preConfigureCredits;
    return queue, SUCCESS;
  }

  /** A receiving queue when its first k buffers have been queued. */
  ghost function Filling(sizes: seq<Size>, k: nat): Queue
    requires k <= |sizes|
  {
    NewQueue(Receive, false, false, sizes).(idle := Pool(|sizes|)[k..], queued := Pool(|sizes|)[..k])
  }

  /** Taking the next idle buffer and queueing it moves exactly that buffer. */
  lemma FillNext(sizes: seq<Size>, k: nat)
    requires k < |sizes|
    ensures var o := TakeIdle(Filling(sizes, k), Before);
            && o.Taken? && o.b == k && At(o.q, k).size == sizes[k]
            && QueueModel.QueueBuffer(o.q, k) == Posting(Filling(sizes, k + 1), SUCCESS, Some(k))
  {
    var pool := Pool(|sizes|);
    assert pool[k..][1..] == pool[k + 1..] && pool[..k] + [k] == pool[..k + 1];
    assert Unlink([k], k) == [];
  }

  /** The first loop of `PostConfigure`: queues every buffer of a new receiving session. `posted` is the order in which
      the buffers reach the queue pair. */
  method QueueAll(transferBuffers: BufferQueue, ghost sizes: seq<Size>)
    returns (bufferLengths: seq<Size>, posted: seq<BufferId>)
    requires transferBuffers.Valid() && transferBuffers.Model() == NewQueue(Receive, false, false, sizes)
    modifies transferBuffers, transferBuffers.idle`head, transferBuffers.idle`size, transferBuffers.queued`size,
             transferBuffers.queued.buffer, transferBuffers.waiting`size, transferBuffers.waiting.buffer
    ensures transferBuffers.Valid() && transferBuffers.Model() == Filling(sizes, |sizes|)
    ensures bufferLengths == sizes && posted == Pool(|sizes|)
  {
    bufferLengths, posted := [], [];
    var n := |transferBuffers.buffers|;
    assert Pool(n)[0..] == Pool(n) && Pool(n)[..0] == [];
    for i := 0 to n
      invariant transferBuffers.Valid() && transferBuffers.Model() == Filling(sizes, i)
      invariant bufferLengths == sizes[..i] && posted == Pool(n)[..i]
    {
      FillNext(sizes, i);
      var taken, code, waits := transferBuffers.WaitForIdleBuffer(Before);
      var b := taken.value;
      bufferLengths := bufferLengths + [transferBuffers.buffers[b].size];
      var result, post := transferBuffers.QueueBuffer(b);
      posted := posted + [b];
    }
  }

  /** `PostConfigure`: afterwards every buffer is queued, in pool order, and the credit messages announce exactly the
      lengths of the queued receives, in that order. */
  method PostConfigure(transferBuffers: BufferQueue, ghost sizes: seq<Size>) returns (messages: seq<seq<Byte>>)
    requires transferBuffers.Valid() && transferBuffers.Model() == NewQueue(Receive, false, false, sizes)
    modifies transferBuffers, transferBuffers.idle`head, transferBuffers.idle`size, transferBuffers.queued`size,
             transferBuffers.queued.buffer, transferBuffers.waiting`size, transferBuffers.waiting.buffer
    ensures transferBuffers.Valid() && transferBuffers.queued.Contents() == Pool(|sizes|)
    ensures DecodeAll(messages) == sizes
    ensures forall i :: 0 <= i < |messages| ==> 0 < |messages[i]| <= MAX_CREDITS_PER_BUFFER * CREDIT_BYTES
  {
    var bufferLengths, posted := QueueAll(transferBuffers, sizes);
    assert Pool(|sizes|)[..|sizes|] == Pool(|sizes|);
    messages := SplitCredits(bufferLengths);
  }
}
