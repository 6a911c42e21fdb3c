/**
 What the receiving user is given, compared with what the sending user
 submitted: in every run, whoever aborts, and exactly when the order of
 submission is kept.
 */
module DeliveryTheorems {
  import opened QueueModel
  import opened CreditProtocol
  import opened CreditSteps
  import opened Sequences
  import Q = QueueRuns
  import T = QueueTheorems

  // ---------------------------------------------------------------- overtaking

  /** A message overtakes: a credit has failed at the sender, the failure is not yet recorded, and the message fits. */
  ghost predicate Overtakes(s: System, ev: Event) {
    && ev.SendPayload? && s.snd.thread.Failing? && s.snd.q.status == SUCCESS
    && s.snd.q.credits != [] && |ev.payload| <= s.snd.q.credits[0]
  }

  ghost predicate Overtaken(s: System, evs: seq<Event>)
    requires IsRun(s, evs)
    decreases |evs|
  {
    evs != [] && (Overtakes(s, evs[0]) || Overtaken(Next(s, evs[0]), evs[1..]))
  }

  lemma SendJumps(s: System, b: BufferId, payload: Payload, callback: Option<Callback>)
    requires Q.Inv(s.snd) && Enabled(s, SendPayload(b, payload, callback))
    ensures AfterSend(s, b, payload, callback).snd.jump.Some? <==>
            s.snd.jump.Some? || Overtakes(s, SendPayload(b, payload, callback))
  {
    var buffer := At(s.snd.q, b).(used := |payload|, callback := callback);
    var s1 := Q.Next(s.snd, Q.Prepare(b, buffer));
    assert At(s1.q, b) == buffer by { Q.OnePlace(s.snd.q, b); }
    assert Q.QueueOk(s1.q) && Q.CreditOk(s1) by { Q.StepKeeps(s.snd, Q.Prepare(b, buffer)); }
    T.StepJumps(s1, Q.Submit(b));
  }

  /** A step of the sender's queue that submits nothing. */
  lemma OnlySubmitJumps(s: Q.State, ev: Q.Event)
    requires Q.Enabled(s, ev) && !ev.Submit?
    ensures Q.Next(s, ev).jump == s.jump && |Q.Next(s, ev).q.waiting| <= |s.q.waiting|
  {
  }

  lemma SenderSideJumps(s: System, ev: Event)
    requires Q.Inv(s.snd) && Counted(s) && Enabled(s, ev) && SenderSide(ev)
    ensures Next(s, ev).snd.jump.Some? <==> s.snd.jump.Some? || Overtakes(s, ev)
  {
    match ev
    case SendPayload(b, payload, callback) => SendJumps(s, b, payload, callback);
    case AtSender(own) => OnlySubmitJumps(s.snd, own);
    case ProcessCredit => if Q.Gated(s.snd.q) { OnlySubmitJumps(s.snd, Q.Credit(s.ack[0])); }
    case _ =>
  }

  lemma StepJumps(s: System, ev: Event)
    requires Q.Inv(s.snd) && Counted(s) && Enabled(s, ev)
    ensures Next(s, ev).snd.jump.Some? <==> s.snd.jump.Some? || Overtakes(s, ev)
  {
    if SenderSide(ev) {
      SenderSideJumps(s, ev);
    }
  }

  lemma {:induction false} RunJumps(s: System, evs: seq<Event>)
    requires Inv(s) && IsRun(s, evs)
    ensures After(s, evs).snd.jump.Some? <==> s.snd.jump.Some? || Overtaken(s, evs)
    decreases |evs|
  {
    if evs != [] {
      StepKeeps(s, evs[0]);
      StepJumps(s, evs[0]);
      RunJumps(Next(s, evs[0]), evs[1..]);
    }
  }

  // ---------------------------------------------------------------- until the receiver aborts

  lemma StreamInOrder(s: System)
    requires Streamed(s)
    ensures var stream := s.delivered + Completed(s) + s.wire + HeldBy(s.sndData, Q.Unposted(s.snd)) + Waiting(s);
            stream <= Served(s) && (!s.snd.q.aborted ==> stream == Served(s))
  {
    FlattenStream(s.delivered, Completed(s), s.wire, HeldBy(s.sndData, Q.Unposted(s.snd)), Waiting(s));
  }

  /** What the receiving user was given, then what is completed, on the wire, about to be posted, and waiting for a
      credit, is what the sending user submitted, without loss or duplication. It is in the order of submission unless a
      message has overtaken; then that message alone stands before the ones that waited. If the sender aborts, only an
      end is missing. */
  lemma EndToEndStream(evs: seq<Event>)
    requires IsRun(Init(), evs) && Live(After(Init(), evs))
    ensures var s := After(Init(), evs);
            var stream := s.delivered + Completed(s) + s.wire + HeldBy(s.sndData, Q.Unposted(s.snd)) + Waiting(s);
            && stream <= Q.Reordered(s.submitted, s.snd.jump)
            && (!s.snd.q.aborted ==> stream == Q.Reordered(s.submitted, s.snd.jump))
            && (s.snd.jump.None? <==> !Overtaken(Init(), evs))
  {
    InitOk();
    RunKeeps(Init(), evs);
    RunJumps(Init(), evs);
    StreamInOrder(After(Init(), evs));
  }

  // ---------------------------------------------------------------- across aborts

  /** What the receiving user was given and can still take is the beginning of what was submitted, in the order of
      service, and waiting messages are not part of it. */
  ghost predicate InOrder(s: System) {
    && s.delivered + Completed(s) <= Served(s)
    && |s.delivered + Completed(s)| + |s.snd.q.waiting| <= |s.submitted|
  }

  lemma ReorderedLength<X>(s: seq<X>, jump: Option<Q.Jump>)
    ensures |Q.Reordered(s, jump)| == |s|
  {
  }

  lemma FlowsInOrder(s: System)
    requires Streamed(s)
    ensures InOrder(s)
  {
    var later := Travelling(s) + Waiting(s);
    assert s.delivered + (Completed(s) + later) == (s.delivered + Completed(s)) + later;
    ReorderedLength(s.submitted, s.snd.jump);
    assert |Stream(s)| <= |s.submitted| && |Waiting(s)| == |s.snd.q.waiting|;
  }

  /** All that an event can do to a receiver that has aborted is to hand out the oldest completed buffer. */
  ghost predicate OnlyTakes(s: System, s': System) {
    s'.delivered + Completed(s') == s.delivered + Completed(s)
  }

  lemma TakeOldest(s: System, phase: Phase)
    ensures OnlyTakes(s, AfterTake(s, phase))
  {
    if TakeCompleted(s.rcv.q, phase).Taken? {
      assert Completed(s) == [Held(s.rcvData, s.rcv.q.completed[0])] + Completed(AfterTake(s, phase));
    }
  }

  lemma AbortedArrive(s: System)
    requires Q.Detached(s.rcv) && s.rcv.q.aborted && Enabled(s, Arrive)
    ensures OnlyTakes(s, AfterArrive(s))
  {
    HeldByFrame(s.rcvData, AfterArrive(s).rcvData, s.rcv.q.completed);
  }

  lemma AbortedReceiver(s: Q.State, ev: Q.Event)
    requires Q.Inv(s) && Q.Enabled(s, ev) && (ReceiverOnly(ev) || ev.Prepare? || (ev.Submit? && s.q.aborted))
    ensures Q.Next(s, ev).q.completed == s.q.completed
  {
  }

  lemma AbortedPostReceive(s: System, b: BufferId, buffer: Buffer)
    requires Q.Inv(s.rcv) && s.rcv.q.aborted && Enabled(s, PostReceive(b, buffer))
    ensures OnlyTakes(s, AfterPostReceive(s, b, buffer))
  {
    Q.StepKeeps(s.rcv, Q.Prepare(b, buffer));
    AbortedReceiver(s.rcv, Q.Prepare(b, buffer));
    Q.OnlyAbortAborts(s.rcv, Q.Prepare(b, buffer));
    AbortedReceiver(Q.Next(s.rcv, Q.Prepare(b, buffer)), Q.Submit(b));
  }

  lemma ReceiverSideInOrder(s: System, ev: Event)
    requires QueuesOk(s) && InOrder(s) && Enabled(s, ev) && !SenderSide(ev) && !ev.ConfigureReceiver?
    requires s.rcv.q.aborted || (ev.AtReceiver? && ev.own.DoAbort?)
    ensures InOrder(Next(s, ev))
  {
    match ev
    case Arrive => AbortedArrive(s);
    case Take(phase) => TakeOldest(s, phase);
    case AtReceiver(own) => AbortedReceiver(s.rcv, own);
    case PostReceive(b, buffer) => AbortedPostReceive(s, b, buffer);
    case _ =>
  }

  lemma InsertBehind(d: seq<Payload>, s: seq<Payload>, n: nat, x: Payload)
    requires d <= s && 0 < n <= |s| && |d| + n <= |s|
    ensures d <= Q.Reordered(s + [x], Some(Q.Jump(|s|, n)))
  {
    var first, last := s[..|s| - n], s[|s| - n..];
    assert s == first + last && d == first[..|d|];
    Q.ReorderedNew(first, last, x);
  }

  lemma AppendBehind(d: seq<Payload>, s: seq<Payload>, jump: Option<Q.Jump>, x: Payload)
    requires d <= Q.Reordered(s, jump) && (jump.Some? ==> jump.value.at < |s|)
    ensures d <= Q.Reordered(s + [x], jump)
  {
    Q.ReorderedSnoc(s, jump, x);
  }

  lemma SendInOrder(s: System, s': System, b: BufferId, payload: Payload, buffer: Buffer, x: seq<Size>)
    requires SendShape(s, s', b, payload, buffer, x) && InOrder(s)
    requires s.snd.jump.Some? ==> s.snd.jump.value.at < |s.submitted|
    requires |s.snd.submitted| == |s.submitted|
    ensures InOrder(s')
  {
    var d := s.delivered + Completed(s);
    if s'.snd.userPost.Some? && s.snd.q.waiting != [] {
      InsertBehind(d, s.submitted, |s.snd.q.waiting|, payload);
    } else if |s'.snd.submitted| > |s.snd.submitted| {
      AppendBehind(d, s.submitted, s.snd.jump, payload);
    }
  }

  lemma SendKeepsOrder(s: System, b: BufferId, payload: Payload, callback: Option<Callback>)
    requires SenderOk(s.snd, true, s.pre) && Counted(s) && InOrder(s) && Enabled(s, SendPayload(b, payload, callback))
    ensures InOrder(Next(s, SendPayload(b, payload, callback)))
  {
    var s' := AfterSend(s, b, payload, callback);
    var buffer := At(s.snd.q, b).(used := |payload|, callback := callback);
    SendShaped(s, b, payload, callback, buffer);
    SendInOrder(s, s', b, payload, buffer, if s'.snd.userPost.Some? then First(s.snd.q.credits) else []);
  }

  lemma CalmInOrder(s: System, s': System)
    requires InOrder(s) && s'.submitted == s.submitted && s'.snd.jump == s.snd.jump
    requires |s'.snd.q.waiting| <= |s.snd.q.waiting|
    requires s'.delivered == s.delivered && s'.rcv == s.rcv && s'.rcvData == s.rcvData
    ensures InOrder(s')
  {
  }

  lemma ConfigureInOrder(s: System, sizes: seq<Size>)
    requires Counted(s) && InOrder(s) && Enabled(s, ConfigureSender(sizes))
    ensures InOrder(Next(s, ConfigureSender(sizes)))
  {
    AddCreditsToEmpty(NewQueue(Send, false, true, sizes), s.pre);
    CalmInOrder(s, Next(s, ConfigureSender(sizes)));
  }

  lemma QuietInOrder(s: System, own: Q.Event)
    requires InOrder(s) && Enabled(s, AtSender(own))
    ensures InOrder(Next(s, AtSender(own)))
  {
    OnlySubmitJumps(s.snd, own);
    CalmInOrder(s, Next(s, AtSender(own)));
  }

  lemma ProcessInOrder(s: System)
    requires InOrder(s) && Enabled(s, ProcessCredit)
    ensures InOrder(Next(s, ProcessCredit))
  {
    if Q.Gated(s.snd.q) {
      OnlySubmitJumps(s.snd, Q.Credit(s.ack[0]));
    }
    CalmInOrder(s, Next(s, ProcessCredit));
  }

  lemma PostInOrder(s: System, ev: Event)
    requires InOrder(s) && Enabled(s, ev) && (ev.SenderPosts? || ev.CreditPosts? || ev.ReadMessage?)
    ensures InOrder(Next(s, ev))
  {
    CalmInOrder(s, Next(s, ev));
  }

  lemma SenderSideInOrder(s: System, ev: Event)
    requires SenderOk(s.snd, s.sndConfigured, s.pre) && Counted(s) && InOrder(s) && Enabled(s, ev) && SenderSide(ev)
    ensures InOrder(Next(s, ev))
  {
    match ev
    case ConfigureSender(sizes) => ConfigureInOrder(s, sizes);
    case SendPayload(b, payload, callback) => SendKeepsOrder(s, b, payload, callback);
    case AtSender(own) => QuietInOrder(s, own);
    case ProcessCredit => ProcessInOrder(s);
    case _ => PostInOrder(s, ev);
  }

  /** A receiver that has aborted did so before, or does so now. */
  lemma AbortHasCause(s: System, ev: Event)
    requires Enabled(s, ev) && !SenderSide(ev) && !Live(Next(s, ev))
    ensures !ev.ConfigureReceiver? && (s.rcv.q.aborted || (ev.AtReceiver? && ev.own.DoAbort?))
  {
    match ev
    case AtReceiver(own) => Q.OnlyAbortAborts(s.rcv, own);
    case Arrive => Q.OnlyAbortAborts(s.rcv, Q.Complete(|s.wire[0]|, SUCCESS));
    case Take(phase) => Q.OnlyAbortAborts(s.rcv, Q.AcquireCompleted(phase));
    case PostReceive(b, buffer) =>
      Q.OnlyAbortAborts(s.rcv, Q.Prepare(b, buffer));
      Q.OnlyAbortAborts(Q.Next(s.rcv, Q.Prepare(b, buffer)), Q.Submit(b));
    case _ =>
  }

  lemma InOrderStep(s: System, ev: Event)
    requires QueuesOk(s) && Counted(s) && InOrder(s) && Enabled(s, ev)
    requires Live(Next(s, ev)) ==> Streamed(Next(s, ev))
    ensures InOrder(Next(s, ev))
  {
    if SenderSide(ev) {
      SenderSideInOrder(s, ev);
    } else if Live(Next(s, ev)) {
      FlowsInOrder(Next(s, ev));
    } else {
      AbortHasCause(s, ev);
      ReceiverSideInOrder(s, ev);
    }
  }

  lemma {:induction false} InOrderRun(s: System, evs: seq<Event>)
    requires Inv(s) && InOrder(s) && IsRun(s, evs)
    ensures InOrder(After(s, evs))
    decreases |evs|
  {
    if evs != [] {
      StepKeeps(s, evs[0]);
      InOrderStep(s, evs[0]);
      InOrderRun(Next(s, evs[0]), evs[1..]);
    }
  }

  /** The first n in the order of service are the first n submitted as long as none of them has overtaken. */
  lemma PrefixUntilJump(submitted: seq<Payload>, jump: Option<Q.Jump>, n: nat)
    requires n <= |submitted|
    requires jump.Some? ==> 0 < jump.value.over <= jump.value.at < |submitted|
                            && submitted[jump.value.at] != submitted[jump.value.at - jump.value.over]
    ensures |Q.Reordered(submitted, jump)| == |submitted|
    ensures Q.Reordered(submitted, jump)[..n] == submitted[..n] <==>
            jump.None? || n <= jump.value.at - jump.value.over
  {
    if jump.Some? {
      var j := jump.value;
      var k := j.at - j.over;
      var r := Q.Reordered(submitted, jump);
      assert r[..k] == submitted[..k] && r[k] == submitted[j.at];
      if n <= k {
        assert r[..n] == r[..k][..n] && submitted[..n] == submitted[..k][..n];
      } else {
        assert r[..n][k] == r[k] && submitted[..n][k] == submitted[k];
      }
    }
  }

  /** In every run, whoever aborts and whenever, the receiving user is given the beginning of what was submitted, in the
      order of service: nothing twice, nothing missing in between. That is the order of submission if and only if no
      message fell into the window between the failure of a credit and its recording and fitted that credit, or the one
      that did has not been delivered. */
  lemma DeliveredIsPrefix(evs: seq<Event>)
    requires IsRun(Init(), evs)
    ensures var s := After(Init(), evs);
            && s.delivered + Completed(s) <= Q.Reordered(s.submitted, s.snd.jump)
            && (s.snd.jump.None? <==> !Overtaken(Init(), evs))
            && (s.delivered <= s.submitted <==>
                  s.snd.jump.None? || |s.delivered| <= s.snd.jump.value.at - s.snd.jump.value.over)
  {
    InitOk();
    assert Inv(After(Init(), evs)) by { RunKeeps(Init(), evs); }
    InOrderRun(Init(), evs);
    RunJumps(Init(), evs);
    PrefixInState(After(Init(), evs));
  }

  lemma PrefixInState(s: System)
    requires InOrder(s) && Counted(s) && Q.JumpOk(s.snd.submitted, s.snd.jump)
    ensures s.delivered <= s.submitted <==>
            s.snd.jump.None? || |s.delivered| <= s.snd.jump.value.at - s.snd.jump.value.over
  {
    var n := |s.delivered|;
    PrefixUntilJump(s.submitted, s.snd.jump, n);
    assert s.delivered == (s.delivered + Completed(s))[..n] == Served(s)[..n];
  }
}
