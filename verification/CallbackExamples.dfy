/**
 Two runs of a queue with two buffers: one in which callbacks are called in
 another order than the buffers were served, and one in which a callback is
 called that is not the one submitted.
 */
module CallbackExamples {
  import opened QueueModel
  import opened QueueRuns
  import opened QueueTheorems
  import opened CallbackTheorems

  const DISCONNECTED: int := -734017

  lemma ConsCalls(s: State, ev: Event, later: seq<Event>)
    requires Enabled(s, ev) && IsRun(Next(s, ev), later)
    ensures IsRun(s, [ev] + later) && After(s, [ev] + later) == After(Next(s, ev), later)
    ensures Inverted(s, [ev] + later) <==> Inverts(s, ev) || Inverted(Next(s, ev), later)
  {
    assert ([ev] + later)[1..] == later;
  }

  // ---------------------------------------------------------------- two buffers are queued and posted

  /** Receives of one byte, put back on completion. */
  ghost predicate Plain(s: State) {
    && s.q.direction == Receive && s.q.putBack && !s.q.aborted && s.q.status == SUCCESS && s.q.waiting == []
    && |s.q.buffers| == 2 && s.collected == [] && s.calls == Calling(0, [], [], []) && s.userPost.None?
  }

  ghost predicate BothTaken(s: State) {
    Plain(s) && s.q.user == [0, 1] && s.q.queued == [] && s.posted == [] && s.submitted == []
  }

  ghost predicate OnePosted(s: State) {
    && Plain(s) && s.q.user == [1] && s.q.queued == [0] && s.posted == [0]
    && At(s.q, 0) == Buffer(1, 1, Some(1)) && s.submitted == [Submission(0, Some(1), 1)]
  }

  ghost predicate BothPosted(s: State) {
    && Plain(s) && s.q.queued == [0, 1] && s.posted == [0, 1] && s.q.user == []
    && At(s.q, 0) == Buffer(1, 1, Some(1)) && At(s.q, 1) == Buffer(1, 1, Some(2))
    && s.submitted == [Submission(0, Some(1), 1), Submission(1, Some(2), 1)]
  }

  lemma FirstIsPosted(s: State)
    requires BothTaken(s)
    ensures var s1 := Next(s, Prepare(0, Buffer(1, 1, Some(1)))); var s2 := Next(s1, Submit(0));
            Enabled(s2, UserPosts) && OnePosted(Next(s2, UserPosts))
  {
    var s1 := Next(s, Prepare(0, Buffer(1, 1, Some(1))));
    assert Unlink(s1.q.user, 0) == [1];
    assert Submitted(s1.q, [0]) == [Submission(0, Some(1), 1)];
  }

  lemma SecondIsPosted(s: State)
    requires OnePosted(s)
    ensures var s1 := Next(s, Prepare(1, Buffer(1, 1, Some(2)))); var s2 := Next(s1, Submit(1));
            Enabled(s2, UserPosts) && BothPosted(Next(s2, UserPosts))
  {
    var s1 := Next(s, Prepare(1, Buffer(1, 1, Some(2))));
    assert Unlink(s1.q.user, 1) == [];
    assert Submitted(s1.q, [1]) == [Submission(1, Some(2), 1)];
  }

  ghost function PostFirst(later: seq<Event>): seq<Event> {
    [Prepare(0, Buffer(1, 1, Some(1)))] + ([Submit(0)] + ([UserPosts] + later))
  }

  ghost function PostSecond(later: seq<Event>): seq<Event> {
    [Prepare(1, Buffer(1, 1, Some(2)))] + ([Submit(1)] + ([UserPosts] + later))
  }

  ghost function PostBoth(later: seq<Event>): seq<Event> {
    [AcquireIdle(Before)] + ([AcquireIdle(Before)] + PostFirst(PostSecond(later)))
  }

  lemma PostFirstRuns(s: State, later: seq<Event>) returns (s': State)
    requires BothTaken(s)
    ensures OnePosted(s')
    ensures IsRun(s', later) ==>
              && IsRun(s, PostFirst(later)) && After(s, PostFirst(later)) == After(s', later)
              && (Inverted(s, PostFirst(later)) <==> Inverted(s', later))
  {
    FirstIsPosted(s);
    var s1 := Next(s, Prepare(0, Buffer(1, 1, Some(1))));
    var s2 := Next(s1, Submit(0));
    s' := Next(s2, UserPosts);
    if IsRun(s', later) {
      ConsCalls(s2, UserPosts, later);
      ConsCalls(s1, Submit(0), [UserPosts] + later);
      ConsCalls(s, Prepare(0, Buffer(1, 1, Some(1))), [Submit(0)] + ([UserPosts] + later));
    }
  }

  lemma PostSecondRuns(s: State, later: seq<Event>) returns (s': State)
    requires OnePosted(s)
    ensures BothPosted(s')
    ensures IsRun(s', later) ==>
              && IsRun(s, PostSecond(later)) && After(s, PostSecond(later)) == After(s', later)
              && (Inverted(s, PostSecond(later)) <==> Inverted(s', later))
  {
    SecondIsPosted(s);
    var s1 := Next(s, Prepare(1, Buffer(1, 1, Some(2))));
    var s2 := Next(s1, Submit(1));
    s' := Next(s2, UserPosts);
    if IsRun(s', later) {
      ConsCalls(s2, UserPosts, later);
      ConsCalls(s1, Submit(1), [UserPosts] + later);
      ConsCalls(s, Prepare(1, Buffer(1, 1, Some(2))), [Submit(1)] + ([UserPosts] + later));
    }
  }

  ghost function Two(): State {
    Start(Setup(Receive, false, true, [1, 1]))
  }

  lemma UserTakesBoth(s: State)
    requires s == Two()
    ensures BothTaken(Next(Next(s, AcquireIdle(Before)), AcquireIdle(Before)))
  {
    assert s.q.idle == [0, 1];
    var s1 := Next(s, AcquireIdle(Before));
    assert s1.q.user == [0] && s1.q.idle == [1];
  }

  /** From the start, both buffers can be posted, and any run from there follows. */
  lemma PostBothRuns(s: State, later: seq<Event>) returns (s': State)
    requires s == Two()
    ensures BothPosted(s')
    ensures IsRun(s', later) ==>
              && IsRun(s, PostBoth(later)) && After(s, PostBoth(later)) == After(s', later)
              && (Inverted(s, PostBoth(later)) <==> Inverted(s', later))
  {
    UserTakesBoth(s);
    var s1 := Next(s, AcquireIdle(Before));
    var s2 := Next(s1, AcquireIdle(Before));
    var s3 := PostFirstRuns(s2, PostSecond(later));
    s' := PostSecondRuns(s3, later);
    if IsRun(s', later) {
      ConsCalls(s1, AcquireIdle(Before), PostFirst(PostSecond(later)));
      ConsCalls(s, AcquireIdle(Before), [AcquireIdle(Before)] + PostFirst(PostSecond(later)));
    }
  }

  // ---------------------------------------------------------------- calls out of order

  /** The first buffer completes and its callback is in hand; an abort collects the second one and calls it first. */
  ghost function Inverting(): seq<Event> {
    [Complete(1, SUCCESS)] + ([DoAbort(DISCONNECTED)] + ([CallBack(true)] + ([CallBack(false)] + [])))
  }

  /** The second callback was called before the first. */
  ghost predicate SecondCalledFirst(s: State) {
    && s.calls.called == [1, 0] && s.collected == [Fired(1, SUCCESS, 1), Fired(2, DISCONNECTED, 0)]
    && s.submitted == [Submission(0, Some(1), 1), Submission(1, Some(2), 1)]
  }

  ghost predicate BothInHand(s: State) {
    && s.calls == Calling(1, [0], [1], []) && s.collected == [Fired(1, SUCCESS, 1), Fired(2, DISCONNECTED, 0)]
    && s.submitted == [Submission(0, Some(1), 1), Submission(1, Some(2), 1)]
  }

  lemma BothAreCollected(s: State)
    requires BothPosted(s)
    ensures Enabled(s, Complete(1, SUCCESS))
    ensures BothInHand(Next(Next(s, Complete(1, SUCCESS)), DoAbort(DISCONNECTED)))
  {
    var s1 := Next(s, Complete(1, SUCCESS));
    assert s1.q.queued == [1] && s1.q.waiting == [] && s1.collected == [Fired(1, SUCCESS, 1)];
    assert From(0, 1) == [0] && From(1, 1) == [1];
    var gone := s1.q.queued + s1.q.waiting;
    assert gone == [1] && gone[1..] == [] && FireAll(s1.q, gone, DISCONNECTED) == [Fired(2, DISCONNECTED, 0)];
  }

  lemma InvertingRuns(s: State)
    requires BothPosted(s)
    ensures IsRun(s, Inverting()) && Inverted(s, Inverting()) && SecondCalledFirst(After(s, Inverting()))
  {
    BothAreCollected(s);
    var s1 := Next(s, Complete(1, SUCCESS));
    var s2 := Next(s1, DoAbort(DISCONNECTED));
    var s3 := Next(s2, CallBack(true));
    ConsCalls(s3, CallBack(false), []);
    ConsCalls(s2, CallBack(true), [CallBack(false)] + []);
    ConsCalls(s1, DoAbort(DISCONNECTED), [CallBack(true)] + ([CallBack(false)] + []));
    ConsCalls(s, Complete(1, SUCCESS), [DoAbort(DISCONNECTED)] + ([CallBack(true)] + ([CallBack(false)] + [])));
  }

  /** A run in which the callback of an abort is called before that of an earlier completion. */
  lemma CallsCanBeInverted()
    ensures IsRun(Two(), PostBoth(Inverting())) && Inverted(Two(), PostBoth(Inverting()))
    ensures SecondCalledFirst(After(Two(), PostBoth(Inverting())))
  {
    var s := PostBothRuns(Two(), Inverting());
    InvertingRuns(s);
  }

  // ---------------------------------------------------------------- another callback than the one submitted

  ghost function Finishing(): seq<Event> {
    [Complete(1, SUCCESS)] + ([CallBack(false)] + [])
  }

  lemma ReplacedIsCalled(s: State)
    requires BothPosted(s)
    ensures var o := QueueRegion(s.q, 0, 1, Some(9)); var s' := s.(q := o.q);
            && o.code == INVALID_OPERATION && IsRun(s', Finishing())
            && After(s', Finishing()).collected == [Fired(9, SUCCESS, 1)]
            && After(s', Finishing()).calls.called == [0]
  {
    var s' := s.(q := QueueRegion(s.q, 0, 1, Some(9)).q);
    assert At(s'.q, 0) == Buffer(1, 1, Some(9)) && s'.q.queued == [0, 1];
    var s1 := Next(s', Complete(1, SUCCESS));
    assert s1.collected == [Fired(9, SUCCESS, 1)] && From(0, 1) == [0];
    ConsCalls(s1, CallBack(false), []);
    ConsCalls(s', Complete(1, SUCCESS), [CallBack(false)] + []);
  }

  /** A run from the start after which a second call for the first buffer, although refused, makes the queue call back
      with 9 where 1 was submitted. */
  lemma SecondQueueingIsCalled()
    ensures IsRun(Two(), PostBoth([]))
    ensures var s := After(Two(), PostBoth([])); var o := QueueRegion(s.q, 0, 1, Some(9)); var s' := s.(q := o.q);
            && s.submitted == [Submission(0, Some(1), 1), Submission(1, Some(2), 1)]
            && o.code == INVALID_OPERATION && IsRun(s', Finishing())
            && After(s', Finishing()).collected == [Fired(9, SUCCESS, 1)]
            && After(s', Finishing()).calls.called == [0]
  {
    var s := PostBothRuns(Two(), []);
    ReplacedIsCalled(s);
  }
}
