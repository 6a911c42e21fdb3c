/**
 A run in which the receiving user is given a message before one that was
 submitted earlier, because the failure of a credit is recorded too late.
 */
module OvertakingExample {
  import opened QueueModel
  import opened CreditCodec
  import opened CreditProtocol
  import opened DeliveryTheorems
  import Q = QueueRuns
  import T = QueueTheorems

  ghost predicate ReceiveReady(s: System) {
    && s.rcvConfigured && s.rcv.posted == [0] && s.rcv.q.queued == [0] && s.rcv.userPost.None? && !s.rcv.q.aborted
    && s.rcv.q.putBack && |s.rcv.q.buffers| == 1 && At(s.rcv.q, 0).size == 1
    && s.pre == [] && s.wire == [] && s.delivered == []
  }

  /** Both sides are configured, the sending user holds both its buffers, and a receive of one byte is posted. */
  ghost predicate Prepared(s: System) {
    && ReceiveReady(s) && s.sndConfigured && T.BothTaken(s.snd)
    && s.unannounced == [1] && s.ack == [] && s.creditWire == [] && s.submitted == []
  }

  /** A message of two bytes waits for a credit. */
  ghost predicate Waits(s: System) {
    && ReceiveReady(s) && s.sndConfigured && Q.Gated(s.snd.q) && s.snd.userPost.None? && s.snd.creditPost.None?
    && s.snd.q.status == SUCCESS && s.snd.q.user == [1] && s.snd.q.waiting == [0] && |s.snd.q.buffers| == 2
    && At(s.snd.q, 0).used == 2 && s.submitted == [[0, 0]]
  }

  lemma FirstWaits(s: System)
    requires Prepared(s)
    ensures Enabled(s, SendPayload(0, [0, 0], None))
    ensures var s' := Next(s, SendPayload(0, [0, 0], None));
            && Waits(s') && s'.snd.thread.Alive? && s'.snd.q.credits == []
            && s'.unannounced == [1] && s'.ack == [] && s'.creditWire == []
  {
    var s1 := Q.Next(s.snd, Q.Prepare(0, At(s.snd.q, 0).(used := 2, callback := None)));
    assert Unlink(s1.q.user, 0) == [1];
  }

  /** The credit of one byte reaches the sender and fails. */
  lemma CreditFails(s: System)
    requires Waits(s) && s.snd.thread.Alive? && s.snd.q.credits == []
    requires s.unannounced == [1] && s.ack == [] && s.creditWire == []
    ensures Enabled(s, Announce(1))
    ensures var s1 := Next(s, Announce(1));
            && Enabled(s1, ReadMessage)
            && var s2 := Next(s1, ReadMessage);
               && Enabled(s2, ProcessCredit)
               && var s3 := Next(s2, ProcessCredit); Waits(s3) && s3.snd.thread.Failing? && s3.snd.q.credits == [1]
  {
    var s1 := Next(s, Announce(1));
    assert s.unannounced[..1] == [1];
    DecodeEncode([1]);
    assert s1.creditWire == [Encode([1])];
    var s2 := Next(s1, ReadMessage);
    assert s2.ack == [1];
  }

  /** A message of one byte overtakes, and arrives. */
  lemma SecondArrives(s: System)
    requires Waits(s) && s.snd.thread.Failing? && s.snd.q.credits == [1]
    ensures Enabled(s, SendPayload(1, [7], None)) && Overtakes(s, SendPayload(1, [7], None))
    ensures var s1 := Next(s, SendPayload(1, [7], None));
            && Enabled(s1, SenderPosts)
            && var s2 := Next(s1, SenderPosts);
               && Enabled(s2, Arrive)
               && Next(s2, Arrive).submitted == [[0, 0], [7]] && Next(s2, Arrive).delivered == [[7]]
  {
    var s1 := Next(s, SendPayload(1, [7], None));
    assert s1.snd.userPost == Some(1) && Held(s1.sndData, 1) == [7] && s1.submitted == [[0, 0], [7]];
    var s2 := Next(s1, SenderPosts);
    assert s2.wire == [[7]] && ReceiveReady(s2.(wire := []));
  }

  lemma ConsRun(s: System, ev: Event, later: seq<Event>)
    requires Enabled(s, ev) && IsRun(Next(s, ev), later)
    ensures IsRun(s, [ev] + later) && After(s, [ev] + later) == After(Next(s, ev), later)
    ensures Overtaken(s, [ev] + later) <==> Overtakes(s, ev) || Overtaken(Next(s, ev), later)
  {
    assert ([ev] + later)[1..] == later;
  }

  ghost function SetUp(): seq<Event> {
    [ConfigureSender([2, 2])] + ([ConfigureReceiver([1], true)] + Taking())
  }

  ghost function Taking(): seq<Event> {
    [AtSender(Q.AcquireIdle(Before))] + ([AtSender(Q.AcquireIdle(Before))] + Receiving())
  }

  ghost function Receiving(): seq<Event> {
    [AtReceiver(Q.AcquireIdle(Before))]
    + ([PostReceive(0, Buffer(1, 0, None))] + ([AtReceiver(Q.UserPosts)] + Exchange()))
  }

  ghost function Exchange(): seq<Event> {
    [SendPayload(0, [0, 0], None)] + ([Announce(1)] + ([ReadMessage] + ([ProcessCredit] + Overtaking())))
  }

  ghost function Overtaking(): seq<Event> {
    [SendPayload(1, [7], None)] + ([SenderPosts] + ([Arrive] + []))
  }

  ghost predicate GivenSecondOnly(s: System) {
    s.submitted == [[0, 0], [7]] && s.delivered == [[7]]
  }

  lemma OvertakingRuns(s: System)
    requires Waits(s) && s.snd.thread.Failing? && s.snd.q.credits == [1]
    ensures IsRun(s, Overtaking()) && Overtaken(s, Overtaking()) && GivenSecondOnly(After(s, Overtaking()))
  {
    SecondArrives(s);
    var s1 := Next(s, SendPayload(1, [7], None));
    var s2 := Next(s1, SenderPosts);
    ConsRun(s2, Arrive, []);
    ConsRun(s1, SenderPosts, [Arrive] + []);
    ConsRun(s, SendPayload(1, [7], None), [SenderPosts] + ([Arrive] + []));
  }

  lemma ExchangeRuns(s: System)
    requires Prepared(s)
    ensures IsRun(s, Exchange()) && Overtaken(s, Exchange()) && GivenSecondOnly(After(s, Exchange()))
  {
    FirstWaits(s);
    var s1 := Next(s, SendPayload(0, [0, 0], None));
    CreditFails(s1);
    var s2 := Next(s1, Announce(1));
    var s3 := Next(s2, ReadMessage);
    OvertakingRuns(Next(s3, ProcessCredit));
    ConsRun(s3, ProcessCredit, Overtaking());
    ConsRun(s2, ReadMessage, [ProcessCredit] + Overtaking());
    ConsRun(s1, Announce(1), [ReadMessage] + ([ProcessCredit] + Overtaking()));
    ConsRun(s, SendPayload(0, [0, 0], None), [Announce(1)] + ([ReadMessage] + ([ProcessCredit] + Overtaking())));
  }

  /** Nothing has been sent, announced or received yet. */
  ghost predicate Silent(s: System) {
    && s.sndConfigured && s.rcvConfigured && s.rcv == Q.Init(NewQueue(Receive, false, true, [1]))
    && s.unannounced == [] && s.pre == [] && s.ack == [] && s.creditWire == [] && s.wire == []
    && s.submitted == [] && s.delivered == []
  }

  lemma BothConfigured()
    ensures var s2 := Next(Next(Init(), ConfigureSender([2, 2])), ConfigureReceiver([1], true));
            Silent(s2) && s2.snd == Q.Init(NewQueue(Send, false, true, [2, 2]))
  {
  }

  lemma SenderTakesBoth(s: Q.State)
    requires s == Q.Init(NewQueue(Send, false, true, [2, 2]))
    ensures T.BothTaken(Q.Next(Q.Next(s, Q.AcquireIdle(Before)), Q.AcquireIdle(Before)))
  {
    assert s.q.idle == [0, 1];
    var s1 := Q.Next(s, Q.AcquireIdle(Before));
    assert s1.q.user == [0] && s1.q.idle == [1];
  }

  lemma ReceiverPostsOne(s: Q.State)
    requires s == Q.Init(NewQueue(Receive, false, true, [1]))
    ensures var s1 := Q.Next(s, Q.AcquireIdle(Before));
            && s1.userPost.None? && s1.q.user == [0]
            && var s2 := Submitting(s1, 0, Buffer(1, 0, None));
               && s2.userPost == Some(0)
               && var s3 := Q.Next(s2, Q.UserPosts);
                  && s3.posted == [0] && s3.q.queued == [0] && s3.userPost.None? && !s3.q.aborted
                  && s3.q.putBack && |s3.q.buffers| == 1 && At(s3.q, 0).size == 1
  {
    assert s.q.idle == [0] && |s.q.buffers| == 1;
    var s1 := Q.Next(s, Q.AcquireIdle(Before));
    assert s1.q.user == [0] && Unlink([0], 0) == [];
  }

  lemma ReceiverGetsReady(s: System)
    requires Silent(s) && T.BothTaken(s.snd)
    ensures var s1 := Next(s, AtReceiver(Q.AcquireIdle(Before)));
            && Enabled(s1, PostReceive(0, Buffer(1, 0, None)))
            && var s2 := Next(s1, PostReceive(0, Buffer(1, 0, None)));
               Enabled(s2, AtReceiver(Q.UserPosts)) && Prepared(Next(s2, AtReceiver(Q.UserPosts)))
  {
    ReceiverPostsOne(s.rcv);
  }

  lemma ReceiverPart(s: System)
    requires Silent(s) && T.BothTaken(s.snd)
    ensures IsRun(s, Receiving()) && Overtaken(s, Receiving()) && GivenSecondOnly(After(s, Receiving()))
  {
    ReceiverGetsReady(s);
    var s1 := Next(s, AtReceiver(Q.AcquireIdle(Before)));
    var s2 := Next(s1, PostReceive(0, Buffer(1, 0, None)));
    ExchangeRuns(Next(s2, AtReceiver(Q.UserPosts)));
    ConsRun(s2, AtReceiver(Q.UserPosts), Exchange());
    ConsRun(s1, PostReceive(0, Buffer(1, 0, None)), [AtReceiver(Q.UserPosts)] + Exchange());
    ConsRun(s, AtReceiver(Q.AcquireIdle(Before)),
            [PostReceive(0, Buffer(1, 0, None))] + ([AtReceiver(Q.UserPosts)] + Exchange()));
  }

  lemma SenderPart(s: System)
    requires Silent(s) && s.snd == Q.Init(NewQueue(Send, false, true, [2, 2]))
    ensures IsRun(s, Taking()) && Overtaken(s, Taking()) && GivenSecondOnly(After(s, Taking()))
  {
    SenderTakesBoth(s.snd);
    var s1 := Next(s, AtSender(Q.AcquireIdle(Before)));
    ReceiverPart(Next(s1, AtSender(Q.AcquireIdle(Before))));
    ConsRun(s1, AtSender(Q.AcquireIdle(Before)), Receiving());
    ConsRun(s, AtSender(Q.AcquireIdle(Before)), [AtSender(Q.AcquireIdle(Before))] + Receiving());
  }

  lemma StartPart(s: System)
    requires s == Init()
    ensures IsRun(s, SetUp()) && Overtaken(s, SetUp()) && GivenSecondOnly(After(s, SetUp()))
  {
    BothConfigured();
    var s1 := Next(s, ConfigureSender([2, 2]));
    SenderPart(Next(s1, ConfigureReceiver([1], true)));
    ConsRun(s1, ConfigureReceiver([1], true), Taking());
    ConsRun(s, ConfigureSender([2, 2]), [ConfigureReceiver([1], true)] + Taking());
  }

  lemma NotPrefix(s: System)
    requires GivenSecondOnly(s)
    ensures !(s.delivered <= s.submitted)
  {
    assert s.delivered[0] != s.submitted[0];
  }

  /** A run from the start after which the receiving user has been given the second message and not the first. */
  lemma SecondDeliveredFirst()
    ensures IsRun(Init(), SetUp()) && Overtaken(Init(), SetUp())
    ensures var s := After(Init(), SetUp());
            s.submitted == [[0, 0], [7]] && s.delivered == [[7]] && !(s.delivered <= s.submitted)
  {
    var s := Init();
    StartPart(s);
    NotPrefix(After(s, SetUp()));
  }
}
