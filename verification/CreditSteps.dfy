/**
 Every event of the credit protocol keeps its invariant, so the invariant holds
 after every run of the two endpoints.
 */
module CreditSteps {
  import opened QueueModel
  import opened CreditCodec
  import opened CreditProtocol
  import Q = QueueRuns

  lemma ConfigureSenderOk(sizes: seq<Size>, pre: seq<Size>)
    ensures SenderOk(Q.Init(AddCredits(NewQueue(Send, false, true, sizes), pre)), true, [])
  {
    var q := NewQueue(Send, false, true, sizes);
    Q.NewQueueOk(Send, false, true, sizes);
    AddCreditsToEmpty(q, pre);
    var q' := AddCredits(q, pre);
    forall b: BufferId
      ensures Q.Places(q', b) == Q.Places(q, b)
    {
    }
  }

  lemma ConfigureSenderKeeps(s: System, sizes: seq<Size>)
    requires Inv(s) && Enabled(s, ConfigureSender(sizes))
    ensures Sound(Next(s, ConfigureSender(sizes)))
  {
    var s' := Next(s, ConfigureSender(sizes));
    ConfigureSenderOk(sizes, s.pre);
    if Live(s) {
      AddCreditsToEmpty(NewQueue(Send, false, true, sizes), s.pre);
      ConfigureFlows(s, s');
    }
  }

  lemma ConfigureFlows(s: System, s': System)
    requires Flows(s) && s.snd.q.credits == [] && s.snd.q.waiting == [] && Q.Unposted(s.snd) == []
    requires s'.snd.q.credits == s.pre && s'.snd.q.waiting == [] && Q.Unposted(s'.snd) == []
    requires !s.snd.q.aborted && !s'.snd.q.aborted && s.snd.jump.None? && s'.snd.jump.None?
    requires s' == s.(sndConfigured := true, snd := s'.snd, pre := [])
    ensures Flows(s')
  {
    var later := s.ack + (DecodeAll(s.creditWire) + s.unannounced);
    assert s.pre + ([] + later) == [] + (s.pre + later);
  }

  lemma ConfigureReceiverOk(sizes: seq<Size>, putBack: bool, unannounced: seq<Size>)
    ensures var s := Q.Init(NewQueue(Receive, false, putBack, sizes));
            ReceiverOk(s, true, unannounced) && s.q.queued == [] && s.q.completed == [] && !s.q.aborted
  {
    Q.NewQueueOk(Receive, false, putBack, sizes);
  }

  lemma NewReceiverFlows(s: System, s': System)
    requires Flows(s) && s.rcv.q.queued == [] && s.rcv.q.completed == []
    requires s'.rcv.q.queued == [] && s'.rcv.q.completed == [] && s' == s.(rcvConfigured := true, rcv := s'.rcv)
    ensures Flows(s')
  {
  }

  lemma NewReceiver(s: System, s': System)
    requires Inv(s) && !s.rcvConfigured && ReceiverOk(s'.rcv, true, s.unannounced)
    requires s'.rcv.q.queued == [] && s'.rcv.q.completed == [] && s' == s.(rcvConfigured := true, rcv := s'.rcv)
    ensures Sound(s')
  {
    NewReceiverFlows(s, s');
  }

  lemma ConfigureReceiverKeeps(s: System, sizes: seq<Size>, putBack: bool)
    requires Inv(s) && Enabled(s, ConfigureReceiver(sizes, putBack))
    ensures Sound(Next(s, ConfigureReceiver(sizes, putBack)))
  {
    ConfigureReceiverOk(sizes, putBack, s.unannounced);
    NewReceiver(s, Next(s, ConfigureReceiver(sizes, putBack)));
  }

  lemma SendStaysOk(s: System, b: BufferId, payload: Payload, callback: Option<Callback>)
    requires SenderOk(s.snd, true, s.pre) && Enabled(s, SendPayload(b, payload, callback))
    ensures var s' := AfterSend(s, b, payload, callback);
            && SenderOk(s'.snd, true, s.pre)
            && s' == s.(snd := s'.snd, sndData := s'.sndData, submitted := s'.submitted, inFlight := s'.inFlight)
  {
    SenderSubmitsOk(s.snd, b, At(s.snd.q, b).(used := |payload|, callback := callback), s.pre);
  }

  lemma SendKeeps(s: System, b: BufferId, payload: Payload, callback: Option<Callback>)
    requires Inv(s) && Enabled(s, SendPayload(b, payload, callback))
    ensures Sound(Next(s, SendPayload(b, payload, callback)))
  {
    SendStaysOk(s, b, payload, callback);
    if Live(s) {
      SendWhileLive(s, b, payload, callback);
    }
    SenderChanged(s, AfterSend(s, b, payload, callback));
  }

  lemma SenderPostsKeeps(s: System)
    requires Inv(s) && Enabled(s, SenderPosts)
    ensures Sound(Next(s, SenderPosts))
  {
    SenderStepOk(s.snd, Q.UserPosts, s.pre);
    if Live(s) {
      PostFlows(s, Next(s, SenderPosts), s.snd.userPost.value);
    }
  }

  lemma CreditPostsKeeps(s: System)
    requires Inv(s) && Enabled(s, CreditPosts)
    ensures Sound(Next(s, CreditPosts))
  {
    SenderStepOk(s.snd, Q.CreditPosts, s.pre);
    if Live(s) {
      PostFlows(s, Next(s, CreditPosts), s.snd.creditPost.value);
    }
  }

  lemma QuietSenderWhileLive(s: System, ev: Q.Event)
    requires Q.Inv(s.snd) && Flows(s) && Q.Enabled(s.snd, ev) && SenderOnly(ev)
    ensures Flows(s.(snd := Q.Next(s.snd, ev)))
  {
    var s' := s.(snd := Q.Next(s.snd, ev));
    if ev.DoAbort? {
      SenderAbortFlows(s, s');
    } else {
      SenderStaysQuiet(s.snd, ev);
      QuietSenderFlows(s, s');
    }
  }

  lemma SenderChanged(s: System, s': System)
    requires QueuesOk(s) && s.sndConfigured && SenderOk(s'.snd, true, s.pre)
    requires s' == s.(snd := s'.snd, sndData := s'.sndData, submitted := s'.submitted, inFlight := s'.inFlight)
    requires Live(s') ==> Flows(s')
    ensures Sound(s')
  {
  }

  lemma QuietSenderKeeps(s: System, ev: Q.Event)
    requires Inv(s) && Enabled(s, AtSender(ev))
    ensures Sound(Next(s, AtSender(ev)))
  {
    var s' := Next(s, AtSender(ev));
    SenderStepOk(s.snd, ev, s.pre);
    if Live(s') {
      QuietSenderWhileLive(s, ev);
    }
    SenderChanged(s, s');
  }

  lemma PostReceiveWhileLive(s: System, b: BufferId, buffer: Buffer)
    requires Q.Inv(s.rcv) && s.rcv.q.direction == Receive && Live(s) && Flows(s) && Enabled(s, PostReceive(b, buffer))
    ensures Flows(AfterPostReceive(s, b, buffer))
  {
    SubmittingReceive(s.rcv, b, buffer);
    PostReceiveFlows(s, AfterPostReceive(s, b, buffer), b, buffer);
  }

  lemma PostReceiveKeeps(s: System, b: BufferId, buffer: Buffer)
    requires Inv(s) && Enabled(s, PostReceive(b, buffer))
    ensures Sound(Next(s, PostReceive(b, buffer)))
  {
    var s' := AfterPostReceive(s, b, buffer);
    ReceiverSubmitsOk(s.rcv, b, buffer, s.unannounced, s'.unannounced);
    if Live(s) {
      PostReceiveWhileLive(s, b, buffer);
    }
    ReceiverChanged(s, s');
  }

  lemma QuietReceiverWhileLive(s: System, ev: Q.Event)
    requires Live(s) && Flows(s) && Q.Enabled(s.rcv, ev) && ReceiverOnly(ev) && !ev.DoAbort?
    ensures Flows(s.(rcv := Q.Next(s.rcv, ev)))
  {
    ReceiverStep(s.rcv, ev);
    QuietReceiverFlows(s, s.(rcv := Q.Next(s.rcv, ev)));
  }

  lemma ReceiverChanged(s: System, s': System)
    requires QueuesOk(s) && s.rcvConfigured && ReceiverOk(s'.rcv, true, s'.unannounced)
    requires s' == s.(rcv := s'.rcv, delivered := s'.delivered, unannounced := s'.unannounced)
    requires Live(s') ==> Flows(s')
    ensures Sound(s')
  {
  }

  lemma ReceiverStepped(s: System, s': System, aborts: bool)
    requires QueuesOk(s) && s.rcvConfigured && ReceiverOk(s'.rcv, true, s.unannounced) && s' == s.(rcv := s'.rcv)
    requires s'.rcv.q.aborted == (s.rcv.q.aborted || aborts) && (Live(s) && !aborts ==> Flows(s'))
    ensures Sound(s')
  {
  }

  lemma ReceiverPostsKeeps(s: System)
    requires Inv(s) && Enabled(s, AtReceiver(Q.UserPosts))
    ensures Sound(Next(s, AtReceiver(Q.UserPosts)))
  {
    ReceiverStepOk(s.rcv, Q.UserPosts, s.unannounced);
    if Live(s) {
      QuietReceiverWhileLive(s, Q.UserPosts);
    }
    ReceiverStepped(s, Next(s, AtReceiver(Q.UserPosts)), false);
  }

  lemma ReceiverAcquiresKeeps(s: System, phase: Phase)
    requires Inv(s) && Enabled(s, AtReceiver(Q.AcquireIdle(phase)))
    ensures Sound(Next(s, AtReceiver(Q.AcquireIdle(phase))))
  {
    ReceiverStepOk(s.rcv, Q.AcquireIdle(phase), s.unannounced);
    if Live(s) {
      QuietReceiverWhileLive(s, Q.AcquireIdle(phase));
    }
    ReceiverStepped(s, Next(s, AtReceiver(Q.AcquireIdle(phase))), false);
  }

  lemma ReceiverReleasesKeeps(s: System, b: BufferId)
    requires Inv(s) && Enabled(s, AtReceiver(Q.ReleaseToIdle(b)))
    ensures Sound(Next(s, AtReceiver(Q.ReleaseToIdle(b))))
  {
    ReceiverStepOk(s.rcv, Q.ReleaseToIdle(b), s.unannounced);
    if Live(s) {
      QuietReceiverWhileLive(s, Q.ReleaseToIdle(b));
    }
    ReceiverStepped(s, Next(s, AtReceiver(Q.ReleaseToIdle(b))), false);
  }

  lemma ReceiverCallsKeeps(s: System, aborting: bool)
    requires Inv(s) && Enabled(s, AtReceiver(Q.CallBack(aborting)))
    ensures Sound(Next(s, AtReceiver(Q.CallBack(aborting))))
  {
    ReceiverStepOk(s.rcv, Q.CallBack(aborting), s.unannounced);
    if Live(s) {
      QuietReceiverWhileLive(s, Q.CallBack(aborting));
    }
    ReceiverStepped(s, Next(s, AtReceiver(Q.CallBack(aborting))), false);
  }

  lemma ReceiverAbortsKeeps(s: System, code: int)
    requires Inv(s) && Enabled(s, AtReceiver(Q.DoAbort(code)))
    ensures Sound(Next(s, AtReceiver(Q.DoAbort(code))))
  {
    ReceiverStepOk(s.rcv, Q.DoAbort(code), s.unannounced);
    ReceiverStepped(s, Next(s, AtReceiver(Q.DoAbort(code))), true);
  }

  lemma QuietReceiverKeeps(s: System, ev: Q.Event)
    requires Inv(s) && Enabled(s, AtReceiver(ev))
    ensures Sound(Next(s, AtReceiver(ev)))
  {
    assert ReceiverOnly(ev);
    if ev.UserPosts? {
      ReceiverPostsKeeps(s);
    } else if ev.AcquireIdle? {
      ReceiverAcquiresKeeps(s, ev.phase);
    } else if ev.ReleaseToIdle? {
      ReceiverReleasesKeeps(s, ev.b);
    } else if ev.CallBack? {
      ReceiverCallsKeeps(s, ev.aborting);
    } else {
      ReceiverAbortsKeeps(s, ev.code);
    }
  }

  lemma TakeWhileLive(s: System, phase: Phase)
    requires Live(s) && Flows(s)
    ensures Flows(AfterTake(s, phase))
  {
    ReceiverStep(s.rcv, Q.AcquireCompleted(phase));
    if TakeCompleted(s.rcv.q, phase).Taken? {
      TakeFlows(s, AfterTake(s, phase));
    } else {
      QuietReceiverFlows(s, AfterTake(s, phase));
    }
  }

  lemma TakeKeeps(s: System, phase: Phase)
    requires Inv(s) && Enabled(s, Take(phase))
    ensures Sound(Next(s, Take(phase)))
  {
    var s' := Next(s, Take(phase));
    ReceiverStepOk(s.rcv, Q.AcquireCompleted(phase), s.unannounced);
    if Live(s') {
      TakeWhileLive(s, phase);
    }
    ReceiverChanged(s, s');
  }

  lemma ArriveFlows(s: System)
    requires ReceiverOk(s.rcv, true, s.unannounced) && Live(s) && Flows(s) && Enabled(s, Arrive)
    ensures Flows(AfterArrive(s))
  {
    var s', b := AfterArrive(s), s.rcv.posted[0];
    ReceiverCompletes(s.rcv, |s.wire[0]|);
    assert ArriveShape(s, s', b);
    ArriveConserves(s, s', b);
    ArriveFits(s, s', b);
    ArriveStreams(s, s', b);
  }

  lemma ArriveKeeps(s: System)
    requires Inv(s) && Enabled(s, Arrive)
    ensures Sound(Next(s, Arrive))
  {
    ReceiverStepOk(s.rcv, Q.Complete(|s.wire[0]|, SUCCESS), s.unannounced);
    if Live(s) {
      ArriveFlows(s);
    }
  }

  lemma ProcessKeeps(s: System)
    requires Inv(s) && Enabled(s, ProcessCredit)
    ensures Sound(Next(s, ProcessCredit))
  {
    if s.sndConfigured {
      SenderStepOk(s.snd, Q.Credit(s.ack[0]), s.pre);
    }
    if Live(s) {
      ProcessWhileLive(s);
    }
  }

  ghost predicate SenderSide(ev: Event) {
    ev.ConfigureSender? || ev.SendPayload? || ev.SenderPosts? || ev.CreditPosts? || ev.AtSender? || ev.ReadMessage?
    || ev.ProcessCredit?
  }

  lemma SenderSideSound(s: System, ev: Event)
    requires Inv(s) && Enabled(s, ev) && SenderSide(ev)
    ensures Sound(Next(s, ev))
  {
    match ev
    case ConfigureSender(sizes) => ConfigureSenderKeeps(s, sizes);
    case SendPayload(b, payload, callback) => SendKeeps(s, b, payload, callback);
    case SenderPosts => SenderPostsKeeps(s);
    case CreditPosts => CreditPostsKeeps(s);
    case AtSender(own) => QuietSenderKeeps(s, own);
    case ReadMessage => ReadKeeps(s);
    case ProcessCredit => ProcessKeeps(s);
  }

  lemma ReceiverSideSound(s: System, ev: Event)
    requires Inv(s) && Enabled(s, ev) && !SenderSide(ev)
    ensures Sound(Next(s, ev))
  {
    match ev
    case ConfigureReceiver(sizes, putBack) => ConfigureReceiverKeeps(s, sizes, putBack);
    case PostReceive(b, buffer) => PostReceiveKeeps(s, b, buffer);
    case Announce(count) => AnnounceKeeps(s, count);
    case Arrive => ArriveKeeps(s);
    case Take(phase) => TakeKeeps(s, phase);
    case AtReceiver(own) => QuietReceiverKeeps(s, own);
  }

  lemma ReadKeeps(s: System)
    requires Inv(s) && Enabled(s, ReadMessage)
    ensures Sound(Next(s, ReadMessage))
  {
    if Live(s) {
      ReadConserves(s, Next(s, ReadMessage));
    }
  }

  lemma AnnounceKeeps(s: System, count: nat)
    requires Inv(s) && Enabled(s, Announce(count))
    ensures Sound(Next(s, Announce(count)))
  {
    if Live(s) {
      AnnounceConserves(s, count);
    }
  }

  // ---------------------------------------------------------------- what the sender has accepted

  lemma SendCounts(s: System, b: BufferId, payload: Payload, callback: Option<Callback>)
    requires Q.Inv(s.snd) && Q.Gated(s.snd.q) && Counted(s) && Enabled(s, SendPayload(b, payload, callback))
    ensures Counted(Next(s, SendPayload(b, payload, callback)))
  {
    SubmittingSend(s.snd, b, At(s.snd.q, b).(used := |payload|, callback := callback));
  }

  lemma CountedFrame(s: System, s': System)
    requires Counted(s) && s.sndConfigured && s'.sndConfigured
    requires s'.submitted == s.submitted && s'.snd.submitted == s.snd.submitted
    ensures Counted(s')
  {
  }

  lemma ConfigureCounts(s: System, sizes: seq<Size>)
    requires Counted(s) && Enabled(s, ConfigureSender(sizes))
    ensures Counted(Next(s, ConfigureSender(sizes)))
  {
  }

  lemma PostCounts(s: System, ev: Event)
    requires Counted(s) && Enabled(s, ev) && (ev.SenderPosts? || ev.CreditPosts?)
    ensures Counted(Next(s, ev))
  {
    CountedFrame(s, Next(s, ev));
  }

  lemma QuietCounts(s: System, own: Q.Event)
    requires Counted(s) && Enabled(s, AtSender(own))
    ensures Counted(Next(s, AtSender(own)))
  {
    Q.OnlySubmitSubmits(s.snd, own);
    CountedFrame(s, s.(snd := Q.Next(s.snd, own)));
  }

  lemma ReadCounts(s: System)
    requires Counted(s) && Enabled(s, ReadMessage)
    ensures Counted(Next(s, ReadMessage))
  {
  }

  lemma ProcessCounts(s: System)
    requires Q.Gated(s.snd.q) && Counted(s) && Enabled(s, ProcessCredit)
    ensures Counted(Next(s, ProcessCredit))
  {
    if s.sndConfigured {
      Q.OnlySubmitSubmits(s.snd, Q.Credit(s.ack[0]));
      CountedFrame(s, AfterProcessCredit(s));
    }
  }

  lemma ReceiverSideCounts(s: System, ev: Event)
    requires Counted(s) && Enabled(s, ev) && !SenderSide(ev)
    ensures Counted(Next(s, ev))
  {
  }

  lemma SenderSideCounts(s: System, ev: Event)
    requires Q.Inv(s.snd) && Q.Gated(s.snd.q) && Counted(s) && Enabled(s, ev) && SenderSide(ev)
    ensures Counted(Next(s, ev))
  {
    match ev
    case ConfigureSender(sizes) => ConfigureCounts(s, sizes);
    case SendPayload(b, payload, callback) => SendCounts(s, b, payload, callback);
    case AtSender(own) => QuietCounts(s, own);
    case SenderPosts => PostCounts(s, SenderPosts);
    case CreditPosts => PostCounts(s, CreditPosts);
    case ReadMessage => ReadCounts(s);
    case ProcessCredit => ProcessCounts(s);
  }

  lemma StepKeeps(s: System, ev: Event)
    requires Inv(s) && Enabled(s, ev)
    ensures Inv(Next(s, ev))
  {
    if SenderSide(ev) {
      SenderSideSound(s, ev);
      SenderSideCounts(s, ev);
    } else {
      ReceiverSideSound(s, ev);
      ReceiverSideCounts(s, ev);
    }
  }

  lemma {:induction false} RunKeeps(s: System, evs: seq<Event>)
    requires Inv(s) && IsRun(s, evs)
    ensures Inv(After(s, evs))
    decreases |evs|
  {
    if evs != [] {
      StepKeeps(s, evs[0]);
      RunKeeps(Next(s, evs[0]), evs[1..]);
    }
  }

  lemma InitOk()
    ensures Inv(Init())
  {
    Q.NewQueueOk(Send, false, true, []);
    Q.NewQueueOk(Receive, false, true, []);
  }
}
