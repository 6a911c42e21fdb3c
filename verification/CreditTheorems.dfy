/**
 What the credit protocol guarantees in every run from the unconfigured start:
 credits are conserved, no message arrives without a receive it fits, received
 lengths are right, and a waiting sender does not wait in vain.
 */
module CreditTheorems {
  import opened QueueModel
  import opened CreditCodec
  import opened CreditProtocol
  import opened CreditSteps
  import opened Sequences
  import Q = QueueRuns
  import A = QueueAnswers

  // ---------------------------------------------------------------- conservation

  /** Until the receiver aborts, the lengths of the queued receives are, in order: those used up by data that has not
      arrived, the sender's credits, those that came before it was configured, the rest of the message being read, those
      on the wire, and those not yet announced. */
  lemma CreditConservation(evs: seq<Event>)
    requires IsRun(Init(), evs) && Live(After(Init(), evs))
    ensures var s := After(Init(), evs);
            Sizes(s.rcv.q, s.rcv.q.queued) ==
            s.inFlight + s.snd.q.credits + s.pre + s.ack + DecodeAll(s.creditWire) + s.unannounced
    ensures var s := After(Init(), evs); s.sndConfigured ==> s.pre == []
  {
    InitOk();
    RunKeeps(Init(), evs);
    var s := After(Init(), evs);
    Flatten(s.inFlight, s.snd.q.credits, s.pre, s.ack, DecodeAll(s.creditWire), s.unannounced);
  }

  /** Until the receiver aborts, a message never lands without a posted receive, and it fits: the queue pair can always
      deliver. The k-th message in flight fits the k-th queued receive. */
  lemma ArrivalNeverFails(evs: seq<Event>)
    requires IsRun(Init(), evs) && Live(After(Init(), evs))
    ensures var s := After(Init(), evs); s.wire != [] ==> Enabled(s, Arrive)
    ensures var s := After(Init(), evs);
            && |s.wire| <= |s.rcv.q.queued|
            && forall k :: 0 <= k < |s.wire| ==> |s.wire[k]| <= At(s.rcv.q, s.rcv.q.queued[k]).size
  {
    InitOk();
    RunKeeps(Init(), evs);
    MessagesFit(After(Init(), evs));
  }

  lemma MessagesFit(s: System)
    requires ReceiverOk(s.rcv, s.rcvConfigured, s.unannounced) && Live(s) && Conserved(s) && Fits(s)
    ensures s.wire != [] ==> Enabled(s, Arrive)
    ensures |s.wire| <= |s.rcv.q.queued|
    ensures forall k :: 0 <= k < |s.wire| ==> |s.wire[k]| <= At(s.rcv.q, s.rcv.q.queued[k]).size
  {
    var sizes := Sizes(s.rcv.q, s.rcv.q.queued);
    assert |s.wire| <= |s.inFlight| && |sizes| >= |s.inFlight| + |s.unannounced|;
    forall k | 0 <= k < |s.wire|
      ensures |s.wire[k]| <= At(s.rcv.q, s.rcv.q.queued[k]).size
    {
      assert sizes[k] == s.inFlight[k] && Travelling(s)[k] == s.wire[k];
    }
  }

  /** The user queues the credit thread's buffer a second time after it has been matched with a credit, with another
      message that the buffer can hold. */
  ghost function GrownLate(s: System, payload: Payload, callback: Option<Callback>): System
    requires s.snd.creditPost.Some? && |payload| < MAX_LENGTH
  {
    var b := s.snd.creditPost.value;
    s.(sndData := s.sndData[b := payload],
       snd := s.snd.(q := QueueRegion(s.snd.q, b, |payload|, callback).q))
  }

  /** Such a message still fits the receives exactly if it fits the credit, which nobody checks again; if it is the
      first on the wire and does not, it cannot arrive. */
  lemma LateGrowthOverruns(s: System, payload: Payload, callback: Option<Callback>)
    requires Inv(s) && Live(s) && !s.snd.q.aborted && s.snd.creditPost.Some? && |payload| < MAX_LENGTH
    requires |payload| <= At(s.snd.q, s.snd.creditPost.value).size
    ensures s.inFlight != []
    ensures var s' := GrownLate(s, payload, callback);
            && Enabled(s', CreditPosts)
            && (Fits(Next(s', CreditPosts)) <==> |payload| <= s.inFlight[|s.inFlight| - 1])
            && (s.wire == [] ==>
                  && s.rcv.q.queued != []
                  && (Enabled(Next(s', CreditPosts), Arrive) <==> |payload| <= At(s.rcv.q, s.rcv.q.queued[0]).size))
  {
    var b := s.snd.creditPost.value;
    assert Q.Unposted(s.snd) == [b];
    LastFits(s, GrownLate(s, payload, callback), payload);
    OnlyMessage(s);
  }

  lemma LastFits(s: System, s': System, payload: Payload)
    requires Fits(s) && s.snd.creditPost.Some? && Q.Unposted(s.snd) == [s.snd.creditPost.value]
    requires s'.inFlight == s.inFlight && s'.wire == s.wire && s'.sndConfigured
    requires s'.snd == s.snd.(q := s'.snd.q) && Held(s'.sndData, s.snd.creditPost.value) == payload
    ensures s.inFlight != []
    ensures Fits(Next(s', CreditPosts)) <==> |payload| <= s.inFlight[|s.inFlight| - 1]
  {
    var n := |s.wire|;
    assert |s.inFlight| == n + 1;
    var s'' := Next(s', CreditPosts);
    assert s.snd.userPost.None?;
    assert Travelling(s'') == s.wire + [payload];
    assert forall i :: 0 <= i < n ==> Travelling(s)[i] == s.wire[i] && Travelling(s'')[i] == s.wire[i];
    assert Travelling(s'')[n] == payload;
  }

  lemma OnlyMessage(s: System)
    requires ReceiverOk(s.rcv, s.rcvConfigured, s.unannounced) && Live(s) && Conserved(s) && s.inFlight != []
    ensures s.rcvConfigured && s.rcv.q.queued != [] && s.rcv.posted != [] && s.rcv.posted[0] == s.rcv.q.queued[0]
  {
    var sizes := Sizes(s.rcv.q, s.rcv.q.queued);
    assert |sizes| >= |s.inFlight| + |s.unannounced|;
  }

  // ---------------------------------------------------------------- no sender waits in vain

  /** An event that brings a credit closer to the sender, uses one, or records that one has failed. */
  ghost predicate BringsCredit(ev: Event) {
    || ev.CreditPosts? || ev.ProcessCredit? || ev.ReadMessage? || ev.Announce?
    || (ev.AtReceiver? && ev.own.UserPosts?) || (ev.AtSender? && ev.own.FailureRecorded?)
  }

  ghost function One(b: bool): nat {
    if b then 1 else 0
  }

  /** How far all credits are from the sender. */
  ghost function Distance(s: System): nat {
    4 * |s.unannounced| + |s.creditWire| + 2 * |DecodeAll(s.creditWire)| + 2 * |s.ack|
    + One(s.snd.creditPost.Some?) + One(s.snd.thread.Failing?) + One(s.rcv.userPost.Some?)
  }

  lemma AnnouncingIsCloser(s: System, count: nat)
    requires Enabled(s, Announce(count))
    ensures Distance(Next(s, Announce(count))) < Distance(s)
  {
    var now := s.unannounced[..count];
    DecodeAllSnoc(s.creditWire, Encode(now));
    DecodeEncode(now);
  }

  lemma ProcessingIsCloser(s: System)
    requires Enabled(s, ProcessCredit)
    ensures Distance(Next(s, ProcessCredit)) < Distance(s)
  {
  }

  lemma EachStepIsCloser(s: System, ev: Event)
    requires Enabled(s, ev) && BringsCredit(ev)
    ensures Distance(Next(s, ev)) < Distance(s)
  {
    match ev
    case Announce(count) => AnnouncingIsCloser(s, count);
    case ProcessCredit => ProcessingIsCloser(s);
    case _ =>
  }

  /** If a buffer waits in a healthy queue and some receive is not matched with data in flight, a credit can move. */
  lemma MoveCredit(s: System) returns (ev: Event)
    requires QueuesOk(s) && Conserved(s) && s.snd.q.waiting != [] && s.snd.q.status == SUCCESS
    ensures |s.rcv.q.queued| > |s.inFlight| ==> Enabled(s, ev) && BringsCredit(ev)
  {
    ev := if s.snd.thread.Failing? then AtSender(Q.FailureRecorded)
          else if s.snd.creditPost.Some? then CreditPosts
          else if s.ack != [] then ProcessCredit
          else if s.creditWire != [] then ReadMessage
          else if s.rcv.userPost.Some? then AtReceiver(Q.UserPosts)
          else Announce(1);
    assert |Sizes(s.rcv.q, s.rcv.q.queued)| == |s.rcv.q.queued|;
    assert s.sndConfigured && s.pre == [];
  }

  /** No credit can be moved. */
  ghost predicate Settled(s: System) {
    forall ev :: BringsCredit(ev) ==> !Enabled(s, ev)
  }

  /** Nobody waits, the queue has failed, or every queued receive is matched with data in flight. */
  ghost predicate NothingToWaitFor(s: System) {
    s.snd.q.waiting == [] || s.snd.q.status != SUCCESS || |s.rcv.q.queued| == |s.inFlight|
  }

  lemma SettledMeans(s: System)
    requires QueuesOk(s) && Conserved(s) && Settled(s)
    ensures NothingToWaitFor(s)
  {
    if s.snd.q.waiting != [] && s.snd.q.status == SUCCESS {
      var ev := MoveCredit(s);
      assert |Sizes(s.rcv.q, s.rcv.q.queued)| >= |s.inFlight|;
    }
  }

  lemma {:induction false} CreditStepsAreFew(s: System, evs: seq<Event>)
    requires IsRun(s, evs) && forall i :: 0 <= i < |evs| ==> BringsCredit(evs[i])
    ensures |evs| + Distance(After(s, evs)) <= Distance(s)
    decreases |evs|
  {
    if evs != [] {
      EachStepIsCloser(s, evs[0]);
      CreditStepsAreFew(Next(s, evs[0]), evs[1..]);
    }
  }

  lemma SettledInState(s: System)
    requires Inv(s)
    ensures Live(s) && Settled(s) ==> NothingToWaitFor(s)
  {
    if Live(s) && Settled(s) {
      SettledMeans(s);
    }
  }

  /** No credit is lost or stuck: from every state of every run, credit-moving steps in any order come to an end within
      `Distance` steps, and until the receiver aborts they can only end when nobody waits, the sender's queue has
      failed, or every queued receive is matched with data in flight. */
  lemma CreditRunsAreShort(s: System, evs: seq<Event>)
    requires Inv(s) && IsRun(s, evs) && forall i :: 0 <= i < |evs| ==> BringsCredit(evs[i])
    ensures |evs| + Distance(After(s, evs)) <= Distance(s)
    ensures Live(After(s, evs)) && Settled(After(s, evs)) ==> NothingToWaitFor(After(s, evs))
  {
    CreditStepsAreFew(s, evs);
    assert Inv(After(s, evs)) by { RunKeeps(s, evs); }
    SettledInState(After(s, evs));
  }

  // ---------------------------------------------------------------- what the receiving user reads

  /** A completed buffer says how long the message in it is. */
  ghost predicate Measured(s: System) {
    forall b: BufferId :: b in s.rcv.q.completed ==> At(s.rcv.q, b).used == |Held(s.rcvData, b)|
  }

  ghost predicate CompletedKept(q: Queue, q': Queue) {
    forall b: BufferId :: b in q'.completed ==> b in q.completed && At(q', b).used == At(q, b).used
  }

  lemma ReceiverKeepsCompleted(s: Q.State, ev: Q.Event)
    requires Q.Enabled(s, ev) && (ReceiverOnly(ev) || ev.AcquireCompleted?)
    ensures CompletedKept(s.q, Q.Next(s, ev).q)
  {
  }

  lemma SubmittingKeepsCompleted(s: Q.State, b: BufferId, buffer: Buffer)
    requires Q.Inv(s) && s.userPost.None? && b in s.q.user
    ensures CompletedKept(s.q, Submitting(s, b, buffer).q)
  {
    var q1 := Set(s.q, b, buffer);
    assert b !in s.q.completed by { Q.OnePlace(s.q, b); }
    assert CompletedKept(s.q, q1);
    assert CompletedKept(q1, QueueBuffer(q1, b).q);
  }

  lemma CompletionMeasures(s: Q.State, bytes: Size)
    requires Q.Inv(s) && s.posted != []
    ensures var q' := Q.Next(s, Q.Complete(bytes, SUCCESS)).q;
            forall b: BufferId :: b in q'.completed ==>
              if b == s.posted[0] then At(q', b).used == bytes
              else b in s.q.completed && At(q', b).used == At(s.q, b).used
  {
    var b, s' := s.posted[0], Q.Next(s, Q.Complete(bytes, SUCCESS));
    assert !s.q.aborted ==> s.q.queued[0] == b && b in s.q.queued;
    Q.OnePlace(s.q, b);
    assert b < |s.q.buffers| ==> At(s'.q, b).used == bytes;
  }

  lemma ArriveMeasures(s: System, s': System, b: BufferId)
    requires Measured(s) && s.wire != [] && s'.rcvData == s.rcvData[b := s.wire[0]]
    requires forall c: BufferId :: c in s'.rcv.q.completed ==>
               if c == b then At(s'.rcv.q, c).used == |s.wire[0]|
               else c in s.rcv.q.completed && At(s'.rcv.q, c).used == At(s.rcv.q, c).used
    ensures Measured(s')
  {
  }

  lemma MeasuredStep(s: System, ev: Event)
    requires QueuesOk(s) && Measured(s) && Enabled(s, ev)
    ensures Measured(Next(s, ev))
  {
    match ev
    case PostReceive(b, buffer) => SubmittingKeepsCompleted(s.rcv, b, buffer);
    case AtReceiver(own) => ReceiverKeepsCompleted(s.rcv, own);
    case Take(phase) => ReceiverKeepsCompleted(s.rcv, Q.AcquireCompleted(phase));
    case Arrive =>
      CompletionMeasures(s.rcv, |s.wire[0]|);
      ArriveMeasures(s, Next(s, ev), s.rcv.posted[0]);
    case _ =>
  }

  lemma {:induction false} MeasuredRun(s: System, evs: seq<Event>)
    requires Inv(s) && Measured(s) && IsRun(s, evs)
    ensures Measured(After(s, evs))
    decreases |evs|
  {
    if evs != [] {
      StepKeeps(s, evs[0]);
      MeasuredStep(s, evs[0]);
      MeasuredRun(Next(s, evs[0]), evs[1..]);
    }
  }

  /** Unless the receiver puts buffers back, an arrival completes the oldest receive with the message in it, and its
      callback, if it has one, is told success and the length of the message. Otherwise the message is delivered. */
  lemma ArrivalTells(s: System)
    requires Q.Inv(s.rcv) && Live(s) && Enabled(s, Arrive)
    ensures var s' := Next(s, Arrive); var b := s.rcv.q.queued[0];
            && s.rcv.q.queued != [] && Held(s'.rcvData, b) == s.wire[0]
            && (match At(s.rcv.q, b).callback
                case None => s'.rcv.collected == s.rcv.collected
                case Some(c) => s'.rcv.collected == s.rcv.collected + [Fired(c, SUCCESS, |s.wire[0]|)])
            && if s.rcv.q.putBack
               then s'.delivered == s.delivered + [s.wire[0]] && s'.rcv.q.completed == s.rcv.q.completed
               else s'.delivered == s.delivered && s'.rcv.q.completed == s.rcv.q.completed + [b]
  {
    A.CompletionTells(s.rcv, |s.wire[0]|, SUCCESS);
    ReceiverCompletes(s.rcv, |s.wire[0]|);
  }

  /** Whatever the state of its queue, a receiving user who asks for a completed buffer is given the message in the
      oldest one, if there is one. */
  lemma TakingDelivers(s: System, phase: Phase)
    requires Enabled(s, Take(phase)) && !s.rcv.q.putBack && s.rcv.q.completed != [] && !phase.TimedOut?
    ensures var s' := Next(s, Take(phase)); var b := s.rcv.q.completed[0];
            && s'.delivered == s.delivered + [Held(s.rcvData, b)]
            && s'.rcv.q.completed == s.rcv.q.completed[1..] && s'.rcv.q.user == s.rcv.q.user + [b]
  {
    A.CompletedIsTaken(s.rcv, phase);
  }

  /** After every run, aborted or not, the buffer that the receiving user gets next says the length of its message. */
  lemma LengthsAreRight(evs: seq<Event>)
    requires IsRun(Init(), evs)
    ensures var s := After(Init(), evs);
            forall i :: 0 <= i < |s.rcv.q.completed| ==>
              At(s.rcv.q, s.rcv.q.completed[i]).used == |Completed(s)[i]|
  {
    InitOk();
    MeasuredRun(Init(), evs);
  }
}
