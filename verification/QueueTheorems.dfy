/**
 What the rest of the library may rely on after any run of a buffer queue.
 */
module QueueTheorems {
  import opened QueueModel
  import opened QueueRuns

  /** A queue as `PreConnect`, `ConfigureBuffers` or `ConfigureExternalBuffer` creates it. */
  datatype Setup = Setup(direction: Direction, ignoreCredits: bool, putBack: bool, sizes: seq<Size>)

  ghost function Start(c: Setup): State {
    Init(NewQueue(c.direction, c.ignoreCredits, c.putBack, c.sizes))
  }

  ghost predicate Reaches(c: Setup, evs: seq<Event>) {
    IsRun(Start(c), evs)
  }

  lemma ReachableOk(c: Setup, evs: seq<Event>)
    requires Reaches(c, evs)
    ensures Inv(After(Start(c), evs))
  {
    NewQueueOk(c.direction, c.ignoreCredits, c.putBack, c.sizes);
    RunKeeps(Start(c), evs);
  }

  // ---------------------------------------------------------------- the pool

  ghost function Everything(q: Queue): seq<BufferId> {
    q.idle + q.user + q.waiting + q.queued + q.completed
  }

  lemma EverythingCounts(q: Queue, b: BufferId)
    ensures Occurrences(Everything(q), b) == Places(q, b)
  {
    OccursConcat(q.idle + q.user + q.waiting + q.queued, q.completed, b);
    OccursConcat(q.idle + q.user + q.waiting, q.queued, b);
    OccursConcat(q.idle + q.user, q.waiting, b);
    OccursConcat(q.idle, q.user, b);
  }

  /** A list in which each of the first n numbers occurs once, and nothing else, has length n. */
  lemma {:induction false} OnceEachLength(s: seq<BufferId>, n: nat)
    requires forall b: BufferId :: Occurrences(s, b) == if b < n then 1 else 0
    ensures |s| == n
    decreases n
  {
    if n == 0 {
      if s != [] {
        OccursIn(s, s[0]);
      }
    } else {
      var c := n - 1;
      OccursIn(s, c);
      forall b: BufferId
        ensures Occurrences(Unlink(s, c), b) == if b < c then 1 else 0
      {
        OccursUnlink(s, c, b);
      }
      UnlinkLength(s, c);
      OnceEachLength(Unlink(s, c), c);
    }
  }

  lemma {:induction false} UnlinkLength(s: seq<BufferId>, c: BufferId)
    requires c in s
    ensures |Unlink(s, c)| == |s| - 1
  {
    if s[0] != c {
      UnlinkLength(s[1..], c);
    }
  }

  /** After every run, failed calls and aborts included, each buffer of the pool is in exactly one of the five places,
      so the five lists together have the size of the pool and no ring of that capacity can overflow. */
  lemma PoolNeverLeaks(c: Setup, evs: seq<Event>)
    requires Reaches(c, evs)
    ensures var q := After(Start(c), evs).q;
            && (forall b: BufferId :: Occurrences(Everything(q), b) == if b < |q.buffers| then 1 else 0)
            && |q.idle| + |q.user| + |q.waiting| + |q.queued| + |q.completed| == |q.buffers|
  {
    ReachableOk(c, evs);
    var q := After(Start(c), evs).q;
    PoolSize(q);
    forall b: BufferId
      ensures Occurrences(Everything(q), b) == if b < |q.buffers| then 1 else 0
    {
      EverythingCounts(q, b);
    }
  }

  lemma PoolSize(q: Queue)
    requires Partitioned(q)
    ensures |q.idle| + |q.user| + |q.waiting| + |q.queued| + |q.completed| == |q.buffers|
  {
    forall b: BufferId
      ensures Occurrences(Everything(q), b) == if b < |q.buffers| then 1 else 0
    {
      EverythingCounts(q, b);
    }
    OnceEachLength(Everything(q), |q.buffers|);
  }

  // ---------------------------------------------------------------- order

  /** Two threads post outside the lock, yet until an abort at most one queued buffer is not yet posted, buffers are
      posted in the order in which they were queued, and the in-order assertion of a completion never fails. */
  lemma PostOrderIsQueueOrder(c: Setup, evs: seq<Event>)
    requires Reaches(c, evs)
    ensures var s := After(Start(c), evs);
            && !s.crashed
            && (!s.q.aborted ==> s.posted <= s.q.queued && |s.q.queued| <= |s.posted| + 1)
            && (!s.q.aborted && s.posted != [] ==> s.q.queued != [] && s.q.queued[0] == s.posted[0])
  {
    ReachableOk(c, evs);
  }

  /** The user thread overtakes: a credit has failed, the failure is not yet recorded, and the submission fits it. */
  ghost predicate Overtakes(s: State, ev: Event) {
    && ev.Submit? && s.thread.Failing? && s.q.status == SUCCESS
    && ev.b in s.q.user && s.q.credits != [] && At(s.q, ev.b).used <= s.q.credits[0]
  }

  ghost predicate Overtaken(s: State, evs: seq<Event>)
    requires IsRun(s, evs)
    decreases |evs|
  {
    evs != [] && (Overtakes(s, evs[0]) || Overtaken(Next(s, evs[0]), evs[1..]))
  }

  lemma StepJumps(s: State, ev: Event)
    requires QueueOk(s.q) && CreditOk(s) && Enabled(s, ev)
    ensures Next(s, ev).jump.Some? <==> s.jump.Some? || Overtakes(s, ev)
  {
  }

  lemma {:induction false} RunJumps(s: State, evs: seq<Event>)
    requires Inv(s) && IsRun(s, evs)
    ensures After(s, evs).jump.Some? <==> s.jump.Some? || Overtaken(s, evs)
    decreases |evs|
  {
    if evs != [] {
      StepKeeps(s, evs[0]);
      StepJumps(s, evs[0]);
      RunJumps(Next(s, evs[0]), evs[1..]);
    }
  }

  lemma ReorderedDiffers(submitted: seq<Submission>, jump: Option<Jump>)
    requires JumpOk(submitted, jump)
    ensures Reordered(submitted, jump) == submitted <==> jump.None?
  {
    if jump.Some? {
      var j := jump.value;
      assert Reordered(submitted, jump)[j.at - j.over] == submitted[j.at];
    }
  }

  /** Finished, then queued, then waiting submissions are the accepted ones in the order of submission, exactly unless
      one fell into the window between the failure of a credit and its recording and fitted that credit. Then that one
      submission, and no other, stands before the ones that waited. Outside the window nobody waits while a credit is
      left, unless the queue has failed. */
  lemma CreditsReorderOnlyInWindow(c: Setup, evs: seq<Event>)
    requires Reaches(c, evs)
    ensures var s := After(Start(c), evs); var order := s.finished + Submitted(s.q, s.q.queued + s.q.waiting);
            && (order == s.submitted <==> !Overtaken(Start(c), evs))
            && order == Reordered(s.submitted, s.jump)
            && (s.q.waiting != [] && s.q.credits != [] ==> s.q.status != SUCCESS || s.thread.Failing?)
  {
    ReachableOk(c, evs);
    NewQueueOk(c.direction, c.ignoreCredits, c.putBack, c.sizes);
    RunJumps(Start(c), evs);
    var s := After(Start(c), evs);
    ReorderedDiffers(s.submitted, s.jump);
  }

  // ---------------------------------------------------------------- failure

  /** A queue that has failed with some error. */
  ghost predicate Refuses(q: Queue, error: int) {
    && q.status == error
    && (forall b: BufferId :: QueueBuffer(q, b).code == error && QueueBuffer(q, b).q == q)
    && (forall phase: Phase :: TakeIdle(q, phase) == Failed(if phase.TimedOut? then TIMEOUT else error))
  }

  /** The first error of a queue is never replaced, and in every later state of every run the queue accepts no buffer
      and hands out no idle one, and says that first error; nothing is submitted any more. */
  lemma {:induction false} FirstErrorSticks(s: State, evs: seq<Event>)
    requires IsRun(s, evs) && s.q.status != SUCCESS
    ensures Refuses(After(s, evs).q, s.q.status) && After(s, evs).submitted == s.submitted
    decreases |evs|
  {
    if evs != [] {
      ErrorStays(s, evs[0]);
      FirstErrorSticks(Next(s, evs[0]), evs[1..]);
    }
  }

  lemma ErrorStays(s: State, ev: Event)
    requires Enabled(s, ev) && s.q.status != SUCCESS
    ensures Next(s, ev).q.status == s.q.status && Next(s, ev).submitted == s.submitted
  {
  }

  /** What makes a healthy queue fail: a message that does not fit its receive, a failed completion, an abort. */
  ghost function ErrorOf(s: State, ev: Event): int {
    match ev
    case Submit(b) =>
      if Gated(s.q) && b in s.q.user && s.q.credits != [] && At(s.q, b).used > s.q.credits[0] then SEND_TOO_LARGE
      else SUCCESS
    case FailureRecorded => SEND_TOO_LARGE
    case Complete(_, code) => code
    case DoAbort(code) => code
    case _ => SUCCESS
  }

  /** A healthy queue fails exactly then, with that error. */
  lemma FirstErrorIsRecorded(s: State, ev: Event)
    requires Inv(s) && Enabled(s, ev) && s.q.status == SUCCESS
    ensures Next(s, ev).q.status == ErrorOf(s, ev)
  {
  }

  /** A credit fails exactly if the first waiting buffer does not fit it; it is the only credit, since no older one is
      left while somebody waits. */
  lemma CreditFailsOnlyIfTooSmall(s: State, credit: Size)
    requires Inv(s) && Enabled(s, Credit(credit)) && s.q.status == SUCCESS
    ensures Next(s, Credit(credit)).thread.Failing? <==>
            s.q.waiting != [] && At(s.q, s.q.waiting[0]).used > credit
    ensures Next(s, Credit(credit)).thread.Failing? ==> Next(s, Credit(credit)).q.credits == [credit]
  {
  }

  /** Callbacks fired by an abort are told its error and no bytes. */
  lemma {:induction false} AbortReports(q: Queue, bs: seq<BufferId>, code: int)
    ensures forall i :: 0 <= i < |FireAll(q, bs, code)| ==>
              FireAll(q, bs, code)[i].code == code && FireAll(q, bs, code)[i].bytes == 0
  {
    if bs != [] {
      AbortReports(q, bs[1..], code);
    }
  }

  /** An abort is final: nothing is queued or waits again, no callback is collected again, the error stays; but
      everything completed before it can still be taken, in order. */
  lemma {:induction false} AbortIsFinal(s: State, evs: seq<Event>)
    requires Inv(s) && s.q.aborted && IsRun(s, evs)
    ensures var s' := After(s, evs);
            && s'.q.aborted && s'.q.queued == [] && s'.q.waiting == []
            && s'.q.status == s.q.status != SUCCESS
            && s'.collected == s.collected && s'.submitted == s.submitted
            && s'.taken + s'.q.completed == s.taken + s.q.completed
            && Refuses(s'.q, s.q.status)
            && (s'.q.completed != [] ==>
                  TakeCompleted(s'.q, Before).Taken? && TakeCompleted(s'.q, Before).b == s'.q.completed[0])
    decreases |evs|
  {
    if evs != [] {
      StepKeeps(s, evs[0]);
      AbortedStep(s, evs[0]);
      AbortedTaking(s, evs[0]);
      AbortIsFinal(Next(s, evs[0]), evs[1..]);
    }
  }

  lemma AbortedStep(s: State, ev: Event)
    requires Inv(s) && s.q.aborted && Enabled(s, ev)
    ensures var s' := Next(s, ev);
            s'.q.aborted && s'.q.status == s.q.status && s'.collected == s.collected && s'.submitted == s.submitted
  {
    ErrorStays(s, ev);
  }

  lemma AbortedTaking(s: State, ev: Event)
    requires s.q.aborted && Enabled(s, ev)
    ensures Next(s, ev).taken + Next(s, ev).q.completed == s.taken + s.q.completed
  {
    if ev.AcquireCompleted? && s.q.completed != [] {
      assert s.q.completed == [s.q.completed[0]] + s.q.completed[1..];
    }
  }

  // ---------------------------------------------------------------- a run in which a submission overtakes

  lemma ConsRun(s: State, ev: Event, later: seq<Event>)
    requires Enabled(s, ev) && IsRun(Next(s, ev), later)
    ensures IsRun(s, [ev] + later) && After(s, [ev] + later) == After(Next(s, ev), later)
    ensures Overtaken(s, [ev] + later) <==> Overtakes(s, ev) || Overtaken(Next(s, ev), later)
  {
    assert ([ev] + later)[1..] == later;
  }

  /** A sender with two buffers: the first, of two bytes, waits; a credit of one byte fails; before the failure is
      recorded the second, of one byte, is submitted. */
  ghost function OvertakingRun(): seq<Event> {
    [AcquireIdle(Before)] + ([AcquireIdle(Before)] + OvertakingPart())
  }

  ghost function OvertakingPart(): seq<Event> {
    [Prepare(0, Buffer(2, 2, None))]
    + ([Submit(0)] + ([Credit(1)] + ([Prepare(1, Buffer(2, 1, None))] + ([Submit(1)] + []))))
  }

  /** A healthy sender whose user holds both buffers. */
  ghost predicate BothTaken(s: State) {
    && Gated(s.q) && s.userPost.None? && s.creditPost.None? && s.thread.Alive? && s.q.status == SUCCESS
    && s.q.user == [0, 1] && s.q.waiting == [] && s.q.credits == [] && |s.q.buffers| == 2 && s.submitted == []
  }

  /** The state in which the window is open. */
  ghost predicate WindowOpen(s: State) {
    && s.thread.Failing? && s.userPost.None? && s.q.status == SUCCESS && s.q.user == [1] && s.q.waiting == [0]
    && Gated(s.q) && s.q.credits == [1] && |s.q.buffers| == 2 && s.submitted == [Submission(0, None, 2)]
  }

  lemma WindowOpens(s: State)
    requires BothTaken(s)
    ensures var s1 := Next(s, Prepare(0, Buffer(2, 2, None)));
            && Enabled(s1, Submit(0))
            && Enabled(Next(s1, Submit(0)), Credit(1))
            && WindowOpen(Next(Next(s1, Submit(0)), Credit(1)))
  {
    var s1 := Next(s, Prepare(0, Buffer(2, 2, None)));
    assert Unlink(s1.q.user, 0) == [1];
    assert Submitted(s1.q, [0]) == [Submission(0, None, 2)];
  }

  lemma WindowIsUsed(s: State)
    requires WindowOpen(s)
    ensures var s1 := Next(s, Prepare(1, Buffer(2, 1, None)));
            && Overtakes(s1, Submit(1))
            && Next(s1, Submit(1)).submitted == [Submission(0, None, 2), Submission(1, None, 1)]
            && Next(s1, Submit(1)).q.waiting == [0] && Next(s1, Submit(1)).userPost == Some(1)
  {
    var s1 := Next(s, Prepare(1, Buffer(2, 1, None)));
    assert Submitted(s1.q, [1]) == [Submission(1, None, 1)];
  }

  /** The second submission is about to be posted while the first still waits. */
  ghost predicate OutOfOrder(s: State) {
    s.submitted == [Submission(0, None, 2), Submission(1, None, 1)] && s.q.waiting == [0] && s.userPost == Some(1)
  }

  lemma OvertakingFrom(s2: State)
    requires BothTaken(s2)
    ensures IsRun(s2, OvertakingPart()) && Overtaken(s2, OvertakingPart()) && OutOfOrder(After(s2, OvertakingPart()))
  {
    var s3 := Next(s2, Prepare(0, Buffer(2, 2, None)));
    WindowOpens(s2);
    var s4 := Next(s3, Submit(0));
    var s5 := Next(s4, Credit(1));
    WindowIsUsed(s5);
    var s6 := Next(s5, Prepare(1, Buffer(2, 1, None)));
    ConsRun(s6, Submit(1), []);
    var later := [Submit(1)] + [];
    ConsRun(s5, Prepare(1, Buffer(2, 1, None)), later);
    later := [Prepare(1, Buffer(2, 1, None))] + later;
    ConsRun(s4, Credit(1), later);
    ConsRun(s3, Submit(0), [Credit(1)] + later);
    ConsRun(s2, Prepare(0, Buffer(2, 2, None)), [Submit(0)] + ([Credit(1)] + later));
  }

  /** Such a run exists. */
  lemma OvertakingHappens()
    ensures var c := Setup(Send, false, true, [2, 2]);
            && Reaches(c, OvertakingRun()) && Overtaken(Start(c), OvertakingRun())
            && OutOfOrder(After(Start(c), OvertakingRun()))
  {
    var s0 := Start(Setup(Send, false, true, [2, 2]));
    assert s0.q.idle == [0, 1];
    var s1 := Next(s0, AcquireIdle(Before));
    var s2 := Next(s1, AcquireIdle(Before));
    assert s2.q.user == [0, 1];
    OvertakingFrom(s2);
    ConsRun(s1, AcquireIdle(Before), OvertakingPart());
    ConsRun(s0, AcquireIdle(Before), [AcquireIdle(Before)] + OvertakingPart());
  }
}
