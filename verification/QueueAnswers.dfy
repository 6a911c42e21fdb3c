/**
 What each call on a buffer queue answers, said in terms of what has happened
 before: submissions, completions, and buffers taken and released.
 */
module QueueAnswers {
  import opened QueueModel
  import opened QueueRuns
  import opened QueueTheorems

  // ---------------------------------------------------------------- submitting

  /** A submission is accepted exactly if the queue has not failed, the user holds the buffer, and it fits the oldest
      credit if it needs one and there is one. It waits if it needs a credit and there is none, and is to be posted
      otherwise. A refusal changes nothing but the status, and says why. */
  lemma SubmissionAnswers(s: State, b: BufferId)
    requires Inv(s) && Enabled(s, Submit(b))
    ensures var s' := Next(s, Submit(b)); var o := QueueBuffer(s.q, b); var fits := At(s.q, b).used;
            var accepted := s.q.status == SUCCESS && b in s.q.user
                            && (Gated(s.q) && s.q.credits != [] ==> fits <= s.q.credits[0]);
            && (o.code == SUCCESS <==> accepted)
            && (accepted ==>
                  && s'.submitted == s.submitted + [Submission(b, At(s.q, b).callback, At(s.q, b).used)]
                  && b !in s'.q.user
                  && if Gated(s.q) && s.q.credits == []
                     then s'.q.waiting == s.q.waiting + [b] && s'.q.queued == s.q.queued && s'.userPost.None?
                     else && s'.q.queued == s.q.queued + [b] && s'.q.waiting == s.q.waiting && s'.userPost == Some(b)
                          && s'.q.credits == if Gated(s.q) then s.q.credits[1..] else s.q.credits)
            && (!accepted ==>
                  && s' == s.(q := s.q.(status := s'.q.status))
                  && o.code == if s.q.status != SUCCESS then s.q.status
                               else if b !in s.q.user then INVALID_OPERATION else SEND_TOO_LARGE)
  {
    if b in s.q.user {
      NotAnyMore(s.q, b);
    }
  }

  lemma NotAnyMore(q: Queue, b: BufferId)
    requires Partitioned(q) && b in q.user
    ensures b !in Unlink(q.user, b)
  {
    assert Occurrences(q.user, b) <= 1 by { assert Places(q, b) <= 1; }
    OccursUnlink(q.user, b, b);
    OccursIn(Unlink(q.user, b), b);
  }

  /** A buffer is released exactly if the user holds it, and then becomes the last idle one. */
  lemma ReleaseAnswers(q: Queue, b: BufferId)
    requires Partitioned(q)
    ensures var o := ReleaseBuffer(q, b);
            && (o.code == SUCCESS <==> b in q.user) && (o.code != SUCCESS ==> o.q == q && o.code == INVALID_OPERATION)
            && (o.code == SUCCESS ==> b !in o.q.user && o.q.idle == q.idle + [b])
            && forall c: BufferId :: c != b ==> Occurrences(o.q.user, c) == Occurrences(q.user, c)
  {
    if b in q.user {
      NotAnyMore(q, b);
      forall c: BufferId | c != b
        ensures Occurrences(Unlink(q.user, b), c) == Occurrences(q.user, c)
      {
        OccursUnlink(q.user, b, c);
      }
    }
  }

  // ---------------------------------------------------------------- completing

  /** A completion before an abort finishes the oldest queued submission. If that carried a callback, the callback is
      told the code and the number of bytes that the completion reports, and nothing else is collected. */
  lemma CompletionTells(s: State, bytes: Size, code: int)
    requires Inv(s) && Enabled(s, Complete(bytes, code)) && !s.q.aborted
    ensures var s' := Next(s, Complete(bytes, code)); var b := s.q.queued[0];
            && s.q.queued != [] && b == s.posted[0]
            && s'.finished == s.finished + [Submission(b, At(s.q, b).callback, At(s.q, b).used)]
            && At(s'.q, b).callback == None
            && match At(s.q, b).callback
               case None => s'.collected == s.collected && s'.calls.hand == s.calls.hand
               case Some(c) =>
                 && s'.collected == s.collected + [Fired(c, code, bytes)]
                 && s'.calls.hand == s.calls.hand + [|s.collected|]
  {
    CompleteFinishes(s, bytes, code);
    assert s.q.queued[0] in s.q.queued;
    OnePlace(s.q, s.q.queued[0]);
    assert From(|s.collected|, 1) == [|s.collected|] && From(|s.collected|, 0) == [];
  }

  /** A completion after an abort changes nothing but the length that the buffer says. */
  lemma LateCompletionIsIgnored(s: State, bytes: Size, code: int)
    requires Inv(s) && Enabled(s, Complete(bytes, code)) && s.q.aborted
    ensures var s' := Next(s, Complete(bytes, code));
            && s'.collected == s.collected && s'.finished == s.finished && s'.done == s.done
            && s'.calls.hand == s.calls.hand && s'.q == s.q.(buffers := s'.q.buffers)
  {
    assert From(|s.collected|, 0) == [] && s.collected + [] == s.collected && s.calls.hand + [] == s.calls.hand;
  }

  /** The first abort makes every pending buffer idle and takes its callback. The callbacks taken are those of the
      pending submissions, in their order, and each is told the error and no bytes. */
  lemma AbortTells(s: State, code: int)
    requires Inv(s) && Enabled(s, DoAbort(code)) && !s.q.aborted
    ensures var s' := Next(s, DoAbort(code)); var pending := s.q.queued + s.q.waiting;
            && s.collected <= s'.collected
            && Callbacks(s'.collected[|s.collected|..]) == Calls(Submitted(s.q, pending))
            && (forall i :: |s.collected| <= i < |s'.collected| ==>
                  s'.collected[i].code == code && s'.collected[i].bytes == 0)
            && s'.calls.abortHand == s.calls.abortHand + From(|s.collected|, |s'.collected| - |s.collected|)
            && (forall b: BufferId :: At(s'.q, b) == if b in pending then At(s.q, b).(callback := None) else At(s.q, b))
            && s'.q.queued == [] && s'.q.waiting == [] && s'.q.idle == s.q.idle + pending
            && s'.q.user == s.q.user && s'.q.completed == s.q.completed && s'.q.aborted
  {
    var s', pending := Next(s, DoAbort(code)), s.q.queued + s.q.waiting;
    FireAllCalls(s.q, pending, code);
    AbortReports(s.q, pending, code);
    assert s'.collected[|s.collected|..] == FireAll(s.q, pending, code);
    forall b: BufferId
      ensures At(s'.q, b) == if b in pending then At(s.q, b).(callback := None) else At(s.q, b)
    {
      OnePlace(s.q, b);
    }
  }

  // ---------------------------------------------------------------- taking completed buffers

  /** A queue that puts completed buffers back hands out none. */
  lemma PutBackHandsOutNone(s: State, phase: Phase)
    requires s.q.putBack
    ensures TakeCompleted(s.q, phase) == Failed(INVALID_OPERATION)
    ensures Next(s, AcquireCompleted(phase)) == s
  {
  }

  /** Whatever the state of the queue, a completed buffer is handed out, the oldest first, unless the call has timed out
      or the queue puts completed buffers back. */
  lemma CompletedIsTaken(s: State, phase: Phase)
    requires !s.q.putBack && s.q.completed != [] && !phase.TimedOut?
    ensures var s' := Next(s, AcquireCompleted(phase));
            && s'.taken == s.taken + [s.q.completed[0]] && s'.q.user == s.q.user + [s.q.completed[0]]
            && s'.q.completed == s.q.completed[1..]
            && s' == s.(q := s.q.(user := s'.q.user, completed := s'.q.completed), taken := s'.taken)
  {
  }

  ghost function Served(subs: seq<Submission>): seq<BufferId> {
    seq(|subs|, i requires 0 <= i < |subs| => subs[i].b)
  }

  /** A queue that keeps completed buffers has completed what it has finished. */
  ghost predicate DoneIsFinished(s: State) {
    !s.q.putBack && !s.q.aborted ==> s.done == Served(s.finished)
  }

  lemma DoneStep(s: State, ev: Event)
    requires Inv(s) && DoneIsFinished(s) && Enabled(s, ev)
    ensures DoneIsFinished(Next(s, ev))
  {
    StepSameKind(s, ev);
    OnlyAbortAborts(s, ev);
    if ev.Complete? {
      CompletionDone(s, ev.bytes, ev.code);
    } else if !ev.DoAbort? {
      OthersFinishNothing(s, ev);
    }
  }

  lemma CompletionDone(s: State, bytes: Size, code: int)
    requires Inv(s) && DoneIsFinished(s) && Enabled(s, Complete(bytes, code))
    ensures DoneIsFinished(Next(s, Complete(bytes, code)))
  {
    if !s.q.aborted {
      CompletionTells(s, bytes, code);
      var b := s.q.queued[0];
      assert Served(s.finished + [Submission(b, At(s.q, b).callback, At(s.q, b).used)]) == Served(s.finished) + [b];
    }
  }

  lemma OthersFinishNothing(s: State, ev: Event)
    requires Enabled(s, ev) && !ev.Complete? && !ev.DoAbort?
    ensures Next(s, ev).finished == s.finished && Next(s, ev).done == s.done
  {
  }

  lemma {:induction false} DoneRun(s: State, evs: seq<Event>)
    requires Inv(s) && DoneIsFinished(s) && IsRun(s, evs)
    ensures DoneIsFinished(After(s, evs))
    decreases |evs|
  {
    if evs != [] {
      StepKeeps(s, evs[0]);
      DoneStep(s, evs[0]);
      DoneRun(Next(s, evs[0]), evs[1..]);
    }
  }

  /** After every run, a healthy queue that keeps completed buffers answers by what has been submitted, finished and
      taken: the next finished buffer if there is one; otherwise a wait if something is unfinished, or that nothing is
      queued. After a wait it answers with the next finished buffer or a timeout. */
  lemma CompletedAnswers(c: Setup, evs: seq<Event>)
    requires Reaches(c, evs) && !c.putBack && After(Start(c), evs).q.status == SUCCESS
    ensures var s := After(Start(c), evs);
            var o := TakeCompleted(s.q, Before); var w := TakeCompleted(s.q, Woken);
            && |s.taken| <= |s.finished| <= |s.submitted|
            && (|s.taken| < |s.finished| ==>
                  o.Taken? && w.Taken? && o.b == w.b == s.finished[|s.taken|].b)
            && (|s.taken| == |s.finished| ==>
                  && o == (if |s.finished| < |s.submitted| then MustWait else Failed(NO_BUFFERS_QUEUED))
                  && w == Failed(TIMEOUT))
            && TakeCompleted(s.q, TimedOut) == Failed(TIMEOUT)
  {
    var s := After(Start(c), evs);
    assert Inv(s) by { ReachableOk(c, evs); }
    assert DoneIsFinished(s) by {
      NewQueueOk(c.direction, c.ignoreCredits, c.putBack, c.sizes);
      DoneRun(Start(c), evs);
    }
    assert s.q.putBack == c.putBack by { KindOfRun(Start(c), evs); }
    AnswersInState(s);
  }

  lemma AnswersInState(s: State)
    requires Inv(s) && DoneIsFinished(s) && !s.q.putBack && s.q.status == SUCCESS
    ensures var o := TakeCompleted(s.q, Before); var w := TakeCompleted(s.q, Woken);
            && |s.taken| <= |s.finished| <= |s.submitted|
            && (|s.taken| < |s.finished| ==>
                  o.Taken? && w.Taken? && o.b == w.b == s.finished[|s.taken|].b)
            && (|s.taken| == |s.finished| ==>
                  && o == (if |s.finished| < |s.submitted| then MustWait else Failed(NO_BUFFERS_QUEUED))
                  && w == Failed(TIMEOUT))
  {
    assert s.taken + s.q.completed == Served(s.finished);
    assert |Order(s)| == |s.submitted|;
    if s.q.completed != [] {
      assert (s.taken + s.q.completed)[|s.taken|] == s.q.completed[0];
    }
  }

  /** When nothing is completed, a failed queue says its error. */
  lemma FailedAndEmpty(q: Queue, phase: Phase)
    requires !q.putBack && q.completed == [] && q.status != SUCCESS
    ensures TakeCompleted(q, phase) == Failed(if phase.TimedOut? then TIMEOUT else q.status)
  {
  }

  lemma {:induction false} KindOfRun(s: State, evs: seq<Event>)
    requires IsRun(s, evs)
    ensures SameKind(s.q, After(s, evs).q)
    decreases |evs|
  {
    if evs != [] {
      StepSameKind(s, evs[0]);
      KindOfRun(Next(s, evs[0]), evs[1..]);
    }
  }

  // ---------------------------------------------------------------- taking idle buffers

  /** A healthy queue hands out an idle buffer unless all buffers of the pool are elsewhere; then the call waits, and if
      that was in vain it times out. */
  lemma IdleAnswers(q: Queue, phase: Phase)
    requires Partitioned(q) && q.status == SUCCESS
    ensures var elsewhere := |q.user| + |q.waiting| + |q.queued| + |q.completed|;
            && elsewhere <= |q.buffers|
            && match phase
               case TimedOut => TakeIdle(q, phase) == Failed(TIMEOUT)
               case Before =>
                 if elsewhere < |q.buffers| then q.idle != [] && TakesIdle(q, phase) else TakeIdle(q, phase) == MustWait
               case Woken =>
                 if elsewhere < |q.buffers| then q.idle != [] && TakesIdle(q, phase)
                 else TakeIdle(q, phase) == Failed(TIMEOUT)
  {
    PoolSize(q);
  }

  /** The call hands out the first idle buffer, and nothing else changes. */
  ghost predicate TakesIdle(q: Queue, phase: Phase)
    requires q.idle != []
  {
    TakeIdle(q, phase) == Taken(q.(idle := q.idle[1..], user := q.user + [q.idle[0]]), q.idle[0])
  }

  /** Buffers that an event makes idle: a completion that puts its buffer back, an abort, a release. */
  ghost function Freed(s: State, ev: Event): seq<BufferId>
    requires Enabled(s, ev)
  {
    match ev
    case Complete(_, _) => if s.q.putBack && !s.q.aborted then [s.posted[0]] else []
    case DoAbort(_) => if s.q.aborted then [] else s.q.queued + s.q.waiting
    case ReleaseToIdle(b) => if b in s.q.user then [b] else []
    case _ => []
  }

  /** The buffer that the user gains by acquiring an idle one. */
  ghost function Reused(s: State, ev: Event): seq<BufferId>
    requires Enabled(s, ev)
  {
    var user' := Next(s, ev).q.user;
    if ev.AcquireIdle? && |user'| > |s.q.user| then user'[|s.q.user|..] else []
  }

  ghost function AllFreed(s: State, evs: seq<Event>): seq<BufferId>
    requires IsRun(s, evs)
    decreases |evs|
  {
    if evs == [] then [] else Freed(s, evs[0]) + AllFreed(Next(s, evs[0]), evs[1..])
  }

  ghost function AllReused(s: State, evs: seq<Event>): seq<BufferId>
    requires IsRun(s, evs)
    decreases |evs|
  {
    if evs == [] then [] else Reused(s, evs[0]) + AllReused(Next(s, evs[0]), evs[1..])
  }

  lemma IdleStep(s: State, ev: Event)
    requires Inv(s) && Enabled(s, ev)
    ensures s.q.idle + Freed(s, ev) == Reused(s, ev) + Next(s, ev).q.idle
  {
    match ev
    case Complete(bytes, code) => CompletionFrees(s, bytes, code);
    case DoAbort(code) => AbortFrees(s, code);
    case AcquireIdle(phase) => AcquiringReuses(s, phase);
    case _ => OthersFreeNothing(s, ev);
  }

  lemma AbortFrees(s: State, code: int)
    requires Enabled(s, DoAbort(code))
    ensures Next(s, DoAbort(code)).q.idle == s.q.idle + Freed(s, DoAbort(code))
  {
  }

  lemma AcquiringReuses(s: State, phase: Phase)
    ensures s.q.idle == Reused(s, AcquireIdle(phase)) + Next(s, AcquireIdle(phase)).q.idle
  {
    if TakeIdle(s.q, phase).Taken? {
      assert s.q.idle == [s.q.idle[0]] + s.q.idle[1..];
    }
  }

  lemma CompletionFrees(s: State, bytes: Size, code: int)
    requires Inv(s) && Enabled(s, Complete(bytes, code))
    ensures Next(s, Complete(bytes, code)).q.idle == s.q.idle + Freed(s, Complete(bytes, code))
  {
    if !s.q.aborted {
      DropFirst(s.posted, Listed(s.userPost), Listed(s.creditPost), s.q.queued);
    }
  }

  lemma OthersFreeNothing(s: State, ev: Event)
    requires Enabled(s, ev) && !ev.Complete? && !ev.DoAbort? && !ev.AcquireIdle?
    ensures Next(s, ev).q.idle == s.q.idle + Freed(s, ev)
  {
  }

  lemma InTurn(idle: seq<BufferId>, f1: seq<BufferId>, f2: seq<BufferId>, r1: seq<BufferId>, r2: seq<BufferId>,
               idle': seq<BufferId>, idle'': seq<BufferId>)
    requires idle + f1 == r1 + idle' && idle' + f2 == r2 + idle''
    ensures idle + (f1 + f2) == (r1 + r2) + idle''
  {
    assert idle + (f1 + f2) == (idle + f1) + f2;
    assert (r1 + idle') + f2 == r1 + (idle' + f2);
  }

  /** Idle buffers are reused in the order in which they became idle. */
  lemma {:induction false} IdleServedInTurn(s: State, evs: seq<Event>)
    requires Inv(s) && IsRun(s, evs)
    ensures s.q.idle + AllFreed(s, evs) == AllReused(s, evs) + After(s, evs).q.idle
    decreases |evs|
  {
    if evs != [] {
      var s' := Next(s, evs[0]);
      StepKeeps(s, evs[0]);
      IdleStep(s, evs[0]);
      IdleServedInTurn(s', evs[1..]);
      InTurn(s.q.idle, Freed(s, evs[0]), AllFreed(s', evs[1..]), Reused(s, evs[0]), AllReused(s', evs[1..]),
             s'.q.idle, After(s, evs).q.idle);
    }
  }
}
