/**
 Sender and receiver joined by two in-order, lossless channels: data one way,
 credit messages the other. Every event is one locked section, one post, one
 credit message or one arrival; the module proves what holds until the
 receiver aborts, whether or not the sender does.
 */
module CreditProtocol {
  import opened QueueModel
  import opened CreditCodec
  import opened Sequences
  import Q = QueueRuns

  type Payload = seq<Byte>

  const MAX_LENGTH: nat := 0x1_0000_0000_0000_0000

  /** `pre` are credits that came before the sender was configured, `ack` the unprocessed rest of the message that the
      credit thread is reading, `unannounced` the lengths of receives that are queued but not yet announced.
      `inFlight` records the credits used up by data that has not arrived; `sndData` and `rcvData` what the buffers
      hold; `submitted` and `delivered` what the users on both sides have sent and been given. */
  datatype System = System(
    snd: Q.State,
    rcv: Q.State,
    sndConfigured: bool,
    rcvConfigured: bool,
    pre: seq<Size>,
    ack: seq<Size>,
    creditWire: seq<seq<Byte>>,
    unannounced: seq<Size>,
    wire: seq<Payload>,
    inFlight: seq<Size>,
    sndData: map<BufferId, Payload>,
    rcvData: map<BufferId, Payload>,
    submitted: seq<Payload>,
    delivered: seq<Payload>)

  datatype Event =
    | ConfigureSender(sizes: seq<Size>)
    | ConfigureReceiver(sizes: seq<Size>, putBack: bool)
    | SendPayload(b: BufferId, payload: Payload, callback: Option<Callback>)
    | SenderPosts
    | CreditPosts
    | AtSender(own: Q.Event)
    | PostReceive(b: BufferId, buffer: Buffer)
    | Announce(count: nat)
    | Arrive
    | Take(phase: Phase)
    | AtReceiver(own: Q.Event)
    | ReadMessage
    | ProcessCredit

  ghost function Unconfigured(direction: Direction): Q.State {
    Q.Init(NewQueue(direction, false, true, []))
  }

  ghost function Init(): System {
    System(Unconfigured(Send), Unconfigured(Receive), false, false, [], [], [], [], [], [], map[], map[], [], [])
  }

  /** `ProcessPreConfigureCredits`. */
  ghost function AddCredits(q: Queue, credits: seq<Size>): Queue
    decreases |credits|
  {
    if credits == [] then q else AddCredits(AddCredit(q, credits[0]).q, credits[1..])
  }

  ghost function Held(data: map<BufferId, Payload>, b: BufferId): Payload {
    if b in data then data[b] else []
  }

  ghost function HeldBy(data: map<BufferId, Payload>, bs: seq<BufferId>): seq<Payload> {
    seq(|bs|, i requires 0 <= i < |bs| => Held(data, bs[i]))
  }

  ghost function Sizes(q: Queue, bs: seq<BufferId>): seq<Size> {
    seq(|bs|, i requires 0 <= i < |bs| => At(q, bs[i]).size)
  }

  ghost function First(credits: seq<Size>): seq<Size> {
    if credits == [] then [] else [credits[0]]
  }

  /** Steps of the sender's queue that the receiver has no part in: completions, acquiring, releasing, aborting,
      calling back, and recording that a credit has failed. */
  ghost predicate SenderOnly(ev: Q.Event) {
    || ev.Complete? || ev.AcquireIdle? || ev.ReleaseToIdle? || ev.DoAbort? || ev.FailureRecorded? || ev.CallBack?
  }

  /** The same for the receiver, where posting a receive does not reach the sender either. */
  ghost predicate ReceiverOnly(ev: Q.Event) {
    ev.UserPosts? || ev.AcquireIdle? || ev.ReleaseToIdle? || ev.DoAbort? || ev.CallBack?
  }

  ghost predicate Enabled(s: System, ev: Event) {
    match ev
    case ConfigureSender(_) => !s.sndConfigured
    case ConfigureReceiver(_, _) => !s.rcvConfigured
    case SendPayload(b, payload, _) =>
      s.sndConfigured && s.snd.userPost.None? && b in s.snd.q.user && |payload| < MAX_LENGTH
    case SenderPosts => s.sndConfigured && s.snd.userPost.Some?
    case CreditPosts => s.sndConfigured && s.snd.creditPost.Some?
    case AtSender(own) => s.sndConfigured && Q.Enabled(s.snd, own) && SenderOnly(own)
    case PostReceive(b, _) => s.rcvConfigured && s.rcv.userPost.None? && b in s.rcv.q.user
    case Announce(count) => s.rcv.userPost.None? && 0 < count <= |s.unannounced| && count <= MAX_CREDITS_PER_BUFFER
    case Arrive =>
      s.rcvConfigured && s.wire != [] && s.rcv.posted != [] && |s.wire[0]| <= At(s.rcv.q, s.rcv.posted[0]).size
    case Take(_) => s.rcvConfigured
    case AtReceiver(own) => s.rcvConfigured && Q.Enabled(s.rcv, own) && ReceiverOnly(own)
    case ReadMessage => s.snd.thread.Alive? && s.ack == [] && s.snd.creditPost.None? && s.creditWire != []
    case ProcessCredit => s.snd.thread.Alive? && s.ack != [] && s.snd.creditPost.None?
  }

  /** The user fills buffer b and queues it. */
  ghost function Submitting(s: Q.State, b: BufferId, buffer: Buffer): Q.State
    requires s.userPost.None? && b in s.q.user
  {
    Q.Next(Q.Next(s, Q.Prepare(b, buffer)), Q.Submit(b))
  }

  ghost function AfterSend(s: System, b: BufferId, payload: Payload, callback: Option<Callback>): System
    requires Enabled(s, SendPayload(b, payload, callback))
  {
    var snd := Submitting(s.snd, b, At(s.snd.q, b).(used := |payload|, callback := callback));
    var accepted := |snd.submitted| > |s.snd.submitted|;
    s.(snd := snd,
       sndData := s.sndData[b := payload],
       submitted := if accepted then s.submitted + [payload] else s.submitted,
       inFlight := if snd.userPost.Some? then s.inFlight + First(s.snd.q.credits) else s.inFlight)
  }

  ghost function AfterPostReceive(s: System, b: BufferId, buffer: Buffer): System
    requires Enabled(s, PostReceive(b, buffer))
  {
    var rcv := Submitting(s.rcv, b, buffer);
    s.(rcv := rcv, unannounced := if rcv.userPost.Some? then s.unannounced + [buffer.size] else s.unannounced)
  }

  ghost function AfterProcessCredit(s: System): System
    requires Enabled(s, ProcessCredit)
  {
    var c := s.ack[0];
    if !s.sndConfigured then s.(pre := s.pre + [c], ack := s.ack[1..])
    else
      var s' := s.(ack := s.ack[1..]);
      if !Q.Gated(s.snd.q) then s' else
      var snd := Q.Next(s.snd, Q.Credit(c));
      s'.(snd := snd,
          inFlight := if snd.creditPost.Some? then s.inFlight + First(s.snd.q.credits + [c]) else s.inFlight)
  }

  ghost function AfterArrive(s: System): System
    requires Enabled(s, Arrive)
  {
    var b := s.rcv.posted[0];
    s.(rcv := Q.Next(s.rcv, Q.Complete(|s.wire[0]|, SUCCESS)),
       rcvData := s.rcvData[b := s.wire[0]],
       wire := s.wire[1..],
       inFlight := if s.inFlight == [] then [] else s.inFlight[1..],
       delivered := if s.rcv.q.putBack && !s.rcv.q.aborted then s.delivered + [s.wire[0]] else s.delivered)
  }

  ghost function AfterTake(s: System, phase: Phase): System {
    var o := TakeCompleted(s.rcv.q, phase);
    s.(rcv := Q.Next(s.rcv, Q.AcquireCompleted(phase)),
       delivered := if o.Taken? then s.delivered + [Held(s.rcvData, o.b)] else s.delivered)
  }

  ghost function Next(s: System, ev: Event): System
    requires Enabled(s, ev)
  {
    match ev
    case ConfigureSender(sizes) =>
      s.(sndConfigured := true, pre := [], snd := Q.Init(AddCredits(NewQueue(Send, false, true, sizes), s.pre)))
    case ConfigureReceiver(sizes, putBack) =>
      s.(rcvConfigured := true, rcv := Q.Init(NewQueue(Receive, false, putBack, sizes)))
    case SendPayload(b, payload, callback) => AfterSend(s, b, payload, callback)
    case SenderPosts =>
      s.(snd := Q.Next(s.snd, Q.UserPosts), wire := s.wire + [Held(s.sndData, s.snd.userPost.value)])
    case CreditPosts =>
      s.(snd := Q.Next(s.snd, Q.CreditPosts), wire := s.wire + [Held(s.sndData, s.snd.creditPost.value)])
    case AtSender(own) => s.(snd := Q.Next(s.snd, own))
    case PostReceive(b, buffer) => AfterPostReceive(s, b, buffer)
    case Announce(count) =>
      s.(creditWire := s.creditWire + [Encode(s.unannounced[..count])], unannounced := s.unannounced[count..])
    case Arrive => AfterArrive(s)
    case Take(phase) => AfterTake(s, phase)
    case AtReceiver(own) => s.(rcv := Q.Next(s.rcv, own))
    case ReadMessage => s.(ack := Decode(s.creditWire[0]), creditWire := s.creditWire[1..])
    case ProcessCredit => AfterProcessCredit(s)
  }

  ghost predicate IsRun(s: System, evs: seq<Event>)
    decreases |evs|
  {
    evs == [] || (Enabled(s, evs[0]) && IsRun(Next(s, evs[0]), evs[1..]))
  }

  ghost function After(s: System, evs: seq<Event>): System
    requires IsRun(s, evs)
    decreases |evs|
  {
    if evs == [] then s else After(Next(s, evs[0]), evs[1..])
  }

  // ---------------------------------------------------------------- the invariant

  /** The receiver has not aborted. */
  ghost predicate Live(s: System) {
    !s.rcv.q.aborted
  }

  ghost predicate SenderOk(s: Q.State, configured: bool, pre: seq<Size>) {
    && Q.Inv(s) && Q.Detached(s) && Q.Gated(s.q) && s.q.putBack
    && (configured ==> pre == [])
    && (!configured ==> s.q.credits == [] && s.q.waiting == [] && Q.Unposted(s) == [] && !s.q.aborted)
  }

  ghost predicate ReceiverOk(s: Q.State, configured: bool, unannounced: seq<Size>) {
    && Q.Inv(s) && Q.Detached(s) && s.q.direction == Receive
    && (!configured ==> s.q.queued == [] && s.q.completed == [] && s.userPost.None? && !s.q.aborted)
    && (s.userPost.Some? && !s.q.aborted ==> unannounced != [])
  }

  /** Both queues keep their own invariant, on runs that concern them. */
  ghost predicate QueuesOk(s: System) {
    SenderOk(s.snd, s.sndConfigured, s.pre) && ReceiverOk(s.rcv, s.rcvConfigured, s.unannounced)
  }

  /** All receive lengths that have been or will be promised to the sender, oldest first. */
  ghost function Promised(s: System): seq<Size> {
    s.inFlight + (s.snd.q.credits + (s.pre + (s.ack + (DecodeAll(s.creditWire) + s.unannounced))))
  }

  /** Credits are conserved: the receives that are queued are exactly those promised. */
  ghost predicate Conserved(s: System) {
    Sizes(s.rcv.q, s.rcv.q.queued) == Promised(s)
  }

  /** The data that has used up a credit and has not arrived: on the wire, or about to be posted. */
  ghost function Travelling(s: System): seq<Payload> {
    s.wire + HeldBy(s.sndData, Q.Unposted(s.snd))
  }

  ghost function Waiting(s: System): seq<Payload> {
    HeldBy(s.sndData, s.snd.q.waiting)
  }

  ghost function Completed(s: System): seq<Payload> {
    HeldBy(s.rcvData, s.rcv.q.completed)
  }

  ghost predicate Covered(data: seq<Payload>, credits: seq<Size>) {
    |data| == |credits| && forall i :: 0 <= i < |data| ==> |data[i]| <= credits[i]
  }

  /** Each message in flight fits the credit it used. */
  ghost predicate Fits(s: System) {
    Covered(Travelling(s), s.inFlight)
  }

  /** A waiting buffer holds as many bytes as it says. */
  ghost predicate Filled(s: System) {
    forall b: BufferId :: b in s.snd.q.waiting ==> |Held(s.sndData, b)| == At(s.snd.q, b).used
  }

  /** What has been given to the receiving user, is completed, travelling or waiting. */
  ghost function Stream(s: System): seq<Payload> {
    s.delivered + (Completed(s) + (Travelling(s) + Waiting(s)))
  }

  /** What was submitted, in the order of submission but for a message that overtook others at the sender. */
  ghost function Served(s: System): seq<Payload> {
    Q.Reordered(s.submitted, s.snd.jump)
  }

  /** That is the whole stream; after an abort of the sender the end may be missing. */
  ghost predicate Streamed(s: System) {
    if s.snd.q.aborted then Stream(s) <= Served(s) else Stream(s) == Served(s)
  }

  /** The sender's queue has accepted the submitted messages, with their lengths. */
  ghost predicate Counted(s: System) {
    && |s.snd.submitted| == |s.submitted| && (!s.sndConfigured ==> s.submitted == [] && s.snd.jump.None?)
    && forall i :: 0 <= i < |s.submitted| ==> s.snd.submitted[i].used == |s.submitted[i]|
  }

  ghost predicate Flows(s: System) {
    Conserved(s) && Fits(s) && Filled(s) && Streamed(s)
  }

  ghost predicate Sound(s: System) {
    QueuesOk(s) && (Live(s) ==> Flows(s))
  }

  ghost predicate Inv(s: System) {
    Sound(s) && Counted(s)
  }

  // ---------------------------------------------------------------- facts about the parts

  lemma HeldByFrame(data: map<BufferId, Payload>, data': map<BufferId, Payload>, bs: seq<BufferId>)
    requires forall b: BufferId :: b in bs ==> Held(data', b) == Held(data, b)
    ensures HeldBy(data', bs) == HeldBy(data, bs)
  {
  }

  lemma HeldBySnoc(data: map<BufferId, Payload>, bs: seq<BufferId>, b: BufferId)
    ensures HeldBy(data, bs + [b]) == HeldBy(data, bs) + [Held(data, b)]
  {
  }

  lemma SizesFrame(q: Queue, q': Queue, bs: seq<BufferId>)
    requires forall b: BufferId :: b in bs ==> At(q', b).size == At(q, b).size
    ensures Sizes(q', bs) == Sizes(q, bs)
  {
  }

  lemma SizesSnoc(q: Queue, bs: seq<BufferId>, b: BufferId)
    ensures Sizes(q, bs + [b]) == Sizes(q, bs) + [At(q, b).size]
  {
  }

  lemma {:induction false} AddCreditsToEmpty(q: Queue, credits: seq<Size>)
    requires q.waiting == []
    ensures AddCredits(q, credits) == q.(credits := q.credits + credits)
    decreases |credits|
  {
    if credits == [] {
      assert q.credits + credits == q.credits;
    } else {
      AddCreditsToEmpty(AddCredit(q, credits[0]).q, credits[1..]);
      assert q.credits + credits == q.credits + [credits[0]] + credits[1..];
    }
  }

  /** Neither the user's buffer nor a buffer outside the unfinished line is mistaken for one in it. */
  lemma UserApart(s: Q.State, b: BufferId)
    requires Q.Inv(s) && Q.Detached(s) && b in s.q.user
    ensures b !in Q.Unposted(s) && b !in s.q.waiting && b !in s.q.queued && b !in s.q.completed
  {
    Q.OnePlace(s.q, b);
  }

  lemma CoveredSnoc(data: seq<Payload>, credits: seq<Size>, payload: Payload, c: Size)
    requires Covered(data, credits) && |payload| <= c
    ensures Covered(data + [payload], credits + [c])
  {
  }

  // ---------------------------------------------------------------- each queue by itself

  lemma SenderStays(s: Q.State, s': Q.State, pre: seq<Size>)
    requires SenderOk(s, true, pre) && Q.Inv(s') && Q.Detached(s') && Q.SameKind(s.q, s'.q)
    ensures SenderOk(s', true, pre)
  {
  }

  lemma SenderStepOk(s: Q.State, ev: Q.Event, pre: seq<Size>)
    requires SenderOk(s, true, pre) && Q.Enabled(s, ev)
    ensures SenderOk(Q.Next(s, ev), true, pre)
    ensures Q.Next(s, ev).q.aborted == (s.q.aborted || ev.DoAbort?)
  {
    Q.StepSameKind(s, ev);
    Q.OnlyAbortAborts(s, ev);
    Q.StepKeeps(s, ev);
    Q.DetachedStep(s, ev);
    SenderStays(s, Q.Next(s, ev), pre);
  }

  lemma ReceiverStays(s: Q.State, s': Q.State, unannounced: seq<Size>)
    requires Q.Inv(s') && Q.Detached(s') && Q.SameKind(s.q, s'.q) && s.q.direction == Receive
    requires s'.userPost.Some? && !s'.q.aborted ==> unannounced != []
    ensures ReceiverOk(s', true, unannounced)
  {
  }

  lemma ReceiverStepOk(s: Q.State, ev: Q.Event, unannounced: seq<Size>)
    requires ReceiverOk(s, true, unannounced) && Q.Enabled(s, ev) && !ev.Submit?
    ensures ReceiverOk(Q.Next(s, ev), true, unannounced)
    ensures Q.Next(s, ev).q.aborted == (s.q.aborted || ev.DoAbort?)
  {
    Q.StepSameKind(s, ev);
    Q.OnlyAbortAborts(s, ev);
    Q.OnlySubmitSubmits(s, ev);
    Q.StepKeeps(s, ev);
    Q.DetachedStep(s, ev);
    ReceiverStays(s, Q.Next(s, ev), unannounced);
  }

  lemma SenderSubmitsOk(s: Q.State, b: BufferId, buffer: Buffer, pre: seq<Size>)
    requires SenderOk(s, true, pre) && s.userPost.None? && b in s.q.user
    ensures SenderOk(Submitting(s, b, buffer), true, pre)
  {
    SenderStepOk(s, Q.Prepare(b, buffer), pre);
    SenderStepOk(Q.Next(s, Q.Prepare(b, buffer)), Q.Submit(b), pre);
  }

  lemma ReceiverSubmitsOk(s: Q.State, b: BufferId, buffer: Buffer, unannounced: seq<Size>, unannounced': seq<Size>)
    requires ReceiverOk(s, true, unannounced) && s.userPost.None? && b in s.q.user
    requires Submitting(s, b, buffer).userPost.Some? ==> unannounced' != []
    ensures ReceiverOk(Submitting(s, b, buffer), true, unannounced')
    ensures Submitting(s, b, buffer).q.aborted == s.q.aborted
  {
    var s1 := Q.Next(s, Q.Prepare(b, buffer));
    ReceiverStepOk(s, Q.Prepare(b, buffer), unannounced);
    Q.StepSameKind(s1, Q.Submit(b));
    Q.OnlyAbortAborts(s1, Q.Submit(b));
    Q.StepKeeps(s1, Q.Submit(b));
    Q.DetachedStep(s1, Q.Submit(b));
    ReceiverStays(s1, Q.Next(s1, Q.Submit(b)), unannounced');
  }

  // ---------------------------------------------------------------- the sender's user

  /** Queueing on the sending side: refused, put in the line, or matched with the oldest credit (`x`). */
  ghost predicate SendEffect(s: Q.State, s': Q.State, b: BufferId, buffer: Buffer, x: seq<Size>) {
    && s'.q.buffers == Set(s.q, b, buffer).buffers && s'.q.aborted == s.q.aborted
    && s.q.credits == x + s'.q.credits
    && if s'.userPost.Some? then
         && Q.Unposted(s) == [] && Q.Unposted(s') == [b] && s'.q.waiting == s.q.waiting
         && |x| == 1 && buffer.used <= x[0]
         && Accepted(s, s', b, buffer) && !s.q.aborted
         && if s.q.waiting == [] then s'.jump == s.jump
            else s.jump.None? && s'.jump == Some(Q.Jump(|s.submitted|, |s.q.waiting|))
       else
         && Q.Unposted(s') == Q.Unposted(s) && x == [] && s'.jump == s.jump
         && if |s'.submitted| > |s.submitted|
            then Accepted(s, s', b, buffer) && !s.q.aborted && s'.q.waiting == s.q.waiting + [b]
            else s'.submitted == s.submitted && s'.q.waiting == s.q.waiting
  }

  ghost predicate Accepted(s: Q.State, s': Q.State, b: BufferId, buffer: Buffer) {
    s'.submitted == s.submitted + [Q.Submission(b, buffer.callback, buffer.used)]
  }

  lemma SubmittingSend(s: Q.State, b: BufferId, buffer: Buffer)
    requires Q.Inv(s) && Q.Gated(s.q) && s.userPost.None? && b in s.q.user
    ensures var s' := Submitting(s, b, buffer);
            SendEffect(s, s', b, buffer, if s'.userPost.Some? then First(s.q.credits) else [])
  {
    var q1 := Set(s.q, b, buffer);
    assert At(q1, b) == buffer by { Q.OnePlace(s.q, b); }
    assert Q.Submitted(q1, [b]) == [Q.Submission(b, buffer.callback, buffer.used)];
    QueueingSends(q1, b);
  }

  /** Queueing at the sender: refused, put in the line, or matched with the oldest credit. */
  lemma QueueingSends(q: Queue, b: BufferId)
    requires Q.Gated(q)
    ensures var o := QueueBuffer(q, b);
            && o.q.buffers == q.buffers && o.q.aborted == q.aborted
            && if o.code != SUCCESS then o.post.None? && o.q.credits == q.credits && o.q.waiting == q.waiting
               else if o.post.None?
               then q.status == SUCCESS && o.q.credits == q.credits && o.q.waiting == q.waiting + [b]
               else && q.status == SUCCESS && o.post == Some(b) && q.credits != [] && At(q, b).used <= q.credits[0]
                    && o.q.credits == q.credits[1..] && o.q.waiting == q.waiting
  {
  }

  /** What a send changes: the sender's queue as above, the payload, and the records. */
  ghost predicate SendShape(s: System, s': System, b: BufferId, payload: Payload, buffer: Buffer, x: seq<Size>) {
    && SendEffect(s.snd, s'.snd, b, buffer, x) && buffer.used == |payload|
    && b < |s.snd.q.buffers| && b !in Q.Unposted(s.snd) && b !in s.snd.q.waiting
    && s' == s.(snd := s'.snd, sndData := s.sndData[b := payload], inFlight := s.inFlight + x,
                submitted := if |s'.snd.submitted| > |s.snd.submitted| then s.submitted + [payload] else s.submitted)
  }

  lemma SendShaped(s: System, b: BufferId, payload: Payload, callback: Option<Callback>, buffer: Buffer)
    requires Q.Inv(s.snd) && Q.Detached(s.snd) && Q.Gated(s.snd.q) && Enabled(s, SendPayload(b, payload, callback))
    requires buffer == At(s.snd.q, b).(used := |payload|, callback := callback)
    ensures var s' := AfterSend(s, b, payload, callback);
            SendShape(s, s', b, payload, buffer, if s'.snd.userPost.Some? then First(s.snd.q.credits) else [])
  {
    var s' := AfterSend(s, b, payload, callback);
    var x := if s'.snd.userPost.Some? then First(s.snd.q.credits) else [];
    assert SendEffect(s.snd, s'.snd, b, buffer, x) by { SubmittingSend(s.snd, b, buffer); }
    assert b < |s.snd.q.buffers| by { Q.OnePlace(s.snd.q, b); }
    assert b !in Q.Unposted(s.snd) && b !in s.snd.q.waiting by { UserApart(s.snd, b); }
    assert s.inFlight + [] == s.inFlight;
  }

  /** The oldest credit, if one is used, goes with the data. */
  lemma SendConserves(s: System, s': System, b: BufferId, payload: Payload, buffer: Buffer, x: seq<Size>)
    requires Conserved(s) && SendShape(s, s', b, payload, buffer, x)
    ensures Conserved(s')
  {
    Shift(s.inFlight, x, s'.snd.q.credits, s.pre + (s.ack + (DecodeAll(s.creditWire) + s.unannounced)));
  }

  /** What the user puts into a buffer travels at once or joins the waiting line; nothing else moves. */
  lemma SendTravels(s: System, s': System, b: BufferId, payload: Payload, buffer: Buffer, x: seq<Size>)
    requires SendShape(s, s', b, payload, buffer, x) && Fits(s)
    ensures Fits(s')
    ensures if s'.snd.userPost.Some? then Travelling(s') == Travelling(s) + [payload] && Waiting(s') == Waiting(s)
            else && Travelling(s') == Travelling(s)
                 && Waiting(s') == if |s'.snd.submitted| > |s.snd.submitted| then Waiting(s) + [payload] else Waiting(s)
  {
    HeldByFrame(s.sndData, s'.sndData, Q.Unposted(s.snd));
    HeldByFrame(s.sndData, s'.sndData, s.snd.q.waiting);
    if s'.snd.userPost.Some? {
      assert Travelling(s') == Travelling(s) + [payload];
      CoveredSnoc(Travelling(s), s.inFlight, payload, x[0]);
      assert x == [x[0]];
    } else {
      assert Travelling(s') == Travelling(s) && s'.inFlight == s.inFlight;
      HeldBySnoc(s'.sndData, s.snd.q.waiting, b);
    }
  }

  lemma AppendLast(a: seq<Payload>, b: seq<Payload>, c: seq<Payload>, d: seq<Payload>, x: seq<Payload>)
    ensures a + (b + (c + (d + x))) == (a + (b + (c + d))) + x
    ensures d == [] ==> a + (b + ((c + x) + d)) == (a + (b + (c + d))) + x
    ensures a + (b + (c + d)) == (a + (b + c)) + d
    ensures a + (b + ((c + x) + d)) == (a + (b + c)) + x + d
  {
  }

  /** A message that travels while others wait has overtaken them. */
  lemma SendOvertakes(s: System, s': System, payload: Payload)
    requires Streamed(s) && !s.snd.q.aborted && !s'.snd.q.aborted && s.snd.jump.None? && s.snd.q.waiting != []
    requires s'.delivered == s.delivered && Completed(s') == Completed(s) && s'.submitted == s.submitted + [payload]
    requires Travelling(s') == Travelling(s) + [payload] && Waiting(s') == Waiting(s)
    requires s'.snd.jump == Some(Q.Jump(|s.submitted|, |s.snd.q.waiting|))
    ensures Streamed(s')
  {
    var first, last := s.delivered + (Completed(s) + Travelling(s)), Waiting(s);
    AppendLast(s.delivered, Completed(s), Travelling(s), last, [payload]);
    Q.ReorderedNew(first, last, payload);
  }

  /** A message behind which nobody waits, or that waits itself, is the last. */
  lemma SendIsLast(s: System, s': System, payload: Payload)
    requires Streamed(s) && !s.snd.q.aborted && !s'.snd.q.aborted && s'.snd.jump == s.snd.jump
    requires s.snd.jump.Some? ==> s.snd.jump.value.at < |s.submitted|
    requires s'.delivered == s.delivered && Completed(s') == Completed(s) && s'.submitted == s.submitted + [payload]
    requires || (Travelling(s') == Travelling(s) && Waiting(s') == Waiting(s) + [payload])
             || (Waiting(s) == [] && Waiting(s') == [] && Travelling(s') == Travelling(s) + [payload])
    ensures Streamed(s')
  {
    AppendLast(s.delivered, Completed(s), Travelling(s), Waiting(s), [payload]);
    Q.ReorderedSnoc(s.submitted, s.snd.jump, payload);
  }

  lemma SendMoves(s: System, s': System, b: BufferId, payload: Payload, buffer: Buffer, x: seq<Size>)
    requires SendShape(s, s', b, payload, buffer, x) && Fits(s) && Streamed(s)
    requires s.snd.jump.Some? ==> s.snd.jump.value.at < |s.submitted|
    requires |s.snd.submitted| == |s.submitted|
    ensures Fits(s') && Streamed(s')
  {
    SendTravels(s, s', b, payload, buffer, x);
    if s'.snd.userPost.Some? && s.snd.q.waiting != [] {
      SendOvertakes(s, s', payload);
    } else if |s'.snd.submitted| > |s.snd.submitted| {
      SendIsLast(s, s', payload);
    }
  }

  lemma SendFills(s: System, s': System, b: BufferId, payload: Payload, buffer: Buffer, x: seq<Size>)
    requires SendShape(s, s', b, payload, buffer, x) && Filled(s)
    ensures Filled(s')
  {
  }

  lemma SendFlows(s: System, s': System, b: BufferId, payload: Payload, buffer: Buffer, x: seq<Size>)
    requires SendShape(s, s', b, payload, buffer, x) && Flows(s) && |s.snd.submitted| == |s.submitted|
    requires s.snd.jump.Some? ==> s.snd.jump.value.at < |s.submitted|
    ensures Flows(s')
  {
    SendConserves(s, s', b, payload, buffer, x);
    SendMoves(s, s', b, payload, buffer, x);
    SendFills(s, s', b, payload, buffer, x);
  }

  lemma SendWhileLive(s: System, b: BufferId, payload: Payload, callback: Option<Callback>)
    requires Q.Inv(s.snd) && Q.Detached(s.snd) && Q.Gated(s.snd.q) && Flows(s) && |s.snd.submitted| == |s.submitted|
    requires Enabled(s, SendPayload(b, payload, callback))
    ensures var s' := AfterSend(s, b, payload, callback); Flows(s')
  {
    var s' := AfterSend(s, b, payload, callback);
    var buffer := At(s.snd.q, b).(used := |payload|, callback := callback);
    SendShaped(s, b, payload, callback, buffer);
    SendFlows(s, s', b, payload, buffer, if s'.snd.userPost.Some? then First(s.snd.q.credits) else []);
  }

  /** What was queued and unposted goes onto the wire. */
  lemma PostFlows(s: System, s': System, b: BufferId)
    requires Flows(s) && s'.snd.q == s.snd.q && s'.snd.jump == s.snd.jump
    requires Q.Unposted(s.snd) == [b] && Q.Unposted(s'.snd) == []
    requires s' == s.(snd := s'.snd, wire := s.wire + [Held(s.sndData, b)])
    ensures Flows(s')
  {
    assert Travelling(s') == Travelling(s);
  }

  /** A step of the sender's queue that touches neither its credits nor its unfinished line. */
  ghost predicate QuietSender(s: Q.State, s': Q.State) {
    && s'.q.aborted == s.q.aborted && s'.jump == s.jump
    && s'.q.credits == s.q.credits && s'.q.waiting == s.q.waiting && Q.Unposted(s') == Q.Unposted(s)
    && forall b: BufferId :: b in s.q.waiting ==> At(s'.q, b).used == At(s.q, b).used
  }

  lemma SenderStaysQuiet(s: Q.State, ev: Q.Event)
    requires Q.Inv(s) && Q.Enabled(s, ev)
    requires ev.Complete? || ev.AcquireIdle? || ev.ReleaseToIdle? || ev.FailureRecorded? || ev.CallBack?
    ensures QuietSender(s, Q.Next(s, ev))
  {
    match ev
    case Complete(bytes, code) => CompletionIsQuiet(s, bytes, code);
    case _ =>
  }

  lemma CompletionIsQuiet(s: Q.State, bytes: Size, code: int)
    requires Q.Inv(s) && s.posted != []
    ensures QuietSender(s, Q.Next(s, Q.Complete(bytes, code)))
  {
    if !s.q.aborted {
      Q.DropFirst(s.posted, Q.Listed(s.userPost), Q.Listed(s.creditPost), s.q.queued);
      assert s.posted[0] in s.q.queued;
      Q.OnePlace(s.q, s.posted[0]);
    }
  }

  lemma QuietSenderFlows(s: System, s': System)
    requires Flows(s) && QuietSender(s.snd, s'.snd) && s' == s.(snd := s'.snd)
    ensures Flows(s')
  {
  }

  /** When the sender aborts, what waits is lost and nothing else. */
  lemma SenderAbortFlows(s: System, s': System)
    requires Flows(s) && s' == s.(snd := s'.snd) && s'.snd.q.aborted && s'.snd.q.waiting == []
    requires s'.snd.q.credits == s.snd.q.credits && Q.Unposted(s'.snd) == Q.Unposted(s.snd) && s'.snd.jump == s.snd.jump
    ensures Flows(s')
  {
    var line := s.delivered + (Completed(s) + Travelling(s));
    assert Stream(s') == line && line <= Stream(s);
  }

  // ---------------------------------------------------------------- the credit thread

  /** The credit thread keeps a credit that comes too early. */
  lemma EarlyCreditConserves(s: System, s': System)
    requires Conserved(s) && s.ack != []
    requires s' == s.(pre := s.pre + [s.ack[0]], ack := s.ack[1..])
    ensures Conserved(s')
  {
    assert s.ack == [s.ack[0]] + s.ack[1..];
    Shift(s.pre, [s.ack[0]], s.ack[1..], DecodeAll(s.creditWire) + s.unannounced);
  }

  /** A new credit joins the others, or lets the first waiting buffer travel (`x`). */
  ghost predicate CreditEffect(s: Q.State, s': Q.State, credit: Size, x: seq<Size>) {
    && s'.q.buffers == s.q.buffers && s'.q.aborted == s.q.aborted && s'.jump == s.jump
    && s.q.credits + [credit] == x + s'.q.credits
    && if s'.creditPost.Some? then
         && Q.Unposted(s) == [] && s.q.waiting != [] && Q.Unposted(s') == [s.q.waiting[0]]
         && s'.q.waiting == s.q.waiting[1..]
         && |x| == 1 && At(s.q, s.q.waiting[0]).used <= x[0]
       else
         && Q.Unposted(s') == Q.Unposted(s) && x == [] && s'.q.waiting == s.q.waiting
  }

  lemma CreditStep(s: Q.State, credit: Size)
    requires Q.Inv(s) && Q.Enabled(s, Q.Credit(credit))
    ensures var s' := Q.Next(s, Q.Credit(credit));
            CreditEffect(s, s', credit, if s'.creditPost.Some? then First(s.q.credits + [credit]) else [])
  {
  }

  ghost predicate CreditShape(s: System, s': System, x: seq<Size>) {
    && s.ack != [] && s.pre == [] && CreditEffect(s.snd, s'.snd, s.ack[0], x)
    && s' == s.(snd := s'.snd, ack := s.ack[1..], inFlight := s.inFlight + x)
  }

  lemma CreditShaped(s: System)
    requires Q.Inv(s.snd) && Q.Gated(s.snd.q) && s.sndConfigured && s.pre == []
    requires Enabled(s, ProcessCredit)
    ensures var s' := AfterProcessCredit(s);
            CreditShape(s, s', if s'.snd.creditPost.Some? then First(s.snd.q.credits + [s.ack[0]]) else [])
  {
    CreditStep(s.snd, s.ack[0]);
    assert s.inFlight + [] == s.inFlight;
  }

  lemma CreditConserves(s: System, s': System, x: seq<Size>)
    requires Conserved(s) && CreditShape(s, s', x)
    ensures Conserved(s')
  {
    var c, left := [s.ack[0]], s.ack[1..];
    var later := DecodeAll(s.creditWire) + s.unannounced;
    assert s.ack == c + left;
    Shift(s.snd.q.credits, c, left, later);
    assert [] + (left + later) == left + later && [] + ((c + left) + later) == (c + left) + later;
    Shift(s.inFlight, x, s'.snd.q.credits, left + later);
  }

  lemma MoveOver(a: seq<Payload>, x: Payload, b: seq<Payload>)
    ensures (a + [x]) + b == a + ([x] + b)
  {
  }

  /** The first waiting buffer joins the travelling ones. */
  lemma FirstTravels(s: System, s': System, x: seq<Size>)
    requires CreditShape(s, s', x) && Fits(s) && Filled(s) && s'.snd.creditPost.Some?
    ensures Fits(s') && Travelling(s') + Waiting(s') == Travelling(s) + Waiting(s)
  {
    var b := s.snd.q.waiting[0];
    var payload := Held(s.sndData, b);
    assert b in s.snd.q.waiting;
    assert Travelling(s') == Travelling(s) + [payload];
    assert Waiting(s) == [payload] + Waiting(s');
    MoveOver(Travelling(s), payload, Waiting(s'));
    CoveredSnoc(Travelling(s), s.inFlight, payload, x[0]);
    assert x == [x[0]];
  }

  lemma CreditTravels(s: System, s': System, x: seq<Size>)
    requires CreditShape(s, s', x) && Fits(s) && Filled(s)
    ensures Fits(s') && Travelling(s') + Waiting(s') == Travelling(s) + Waiting(s)
  {
    if s'.snd.creditPost.Some? {
      FirstTravels(s, s', x);
    } else {
      assert Travelling(s') == Travelling(s) && s'.inFlight == s.inFlight;
    }
  }

  lemma CreditMoves(s: System, s': System, x: seq<Size>)
    requires CreditShape(s, s', x) && Fits(s) && Filled(s) && Streamed(s)
    ensures Fits(s') && Filled(s') && Streamed(s')
  {
    CreditTravels(s, s', x);
  }

  lemma CreditFlows(s: System, s': System, x: seq<Size>)
    requires CreditShape(s, s', x) && Flows(s)
    ensures Flows(s')
  {
    CreditConserves(s, s', x);
    CreditMoves(s, s', x);
  }

  lemma ProcessWhileLive(s: System)
    requires SenderOk(s.snd, s.sndConfigured, s.pre) && Flows(s) && Enabled(s, ProcessCredit)
    ensures var s' := AfterProcessCredit(s); Flows(s')
  {
    var s' := AfterProcessCredit(s);
    if s.sndConfigured {
      CreditShaped(s);
      CreditFlows(s, s', if s'.snd.creditPost.Some? then First(s.snd.q.credits + [s.ack[0]]) else []);
    } else {
      EarlyCreditConserves(s, s');
    }
  }

  lemma ReadConserves(s: System, s': System)
    requires Conserved(s) && s.ack == [] && s.creditWire != []
    requires s' == s.(ack := Decode(s.creditWire[0]), creditWire := s.creditWire[1..])
    ensures Conserved(s')
  {
    EmptyFront(s'.ack, DecodeAll(s'.creditWire), s.unannounced);
    assert DecodeAll(s.creditWire) == s'.ack + DecodeAll(s'.creditWire);
    assert s.ack + (DecodeAll(s.creditWire) + s.unannounced)
        == s'.ack + (DecodeAll(s'.creditWire) + s'.unannounced);
  }

  lemma AnnounceConserves(s: System, count: nat)
    requires Conserved(s) && count <= |s.unannounced|
    ensures Conserved(s.(creditWire := s.creditWire + [Encode(s.unannounced[..count])],
                         unannounced := s.unannounced[count..]))
  {
    var now, later := s.unannounced[..count], s.unannounced[count..];
    DecodeAllSnoc(s.creditWire, Encode(now));
    DecodeEncode(now);
    assert DecodeAll(s.creditWire) + s.unannounced == (DecodeAll(s.creditWire) + now) + later;
  }

  // ---------------------------------------------------------------- the receiver

  /** What a step of the receiver's queue does to the receives it has queued and completed. */
  ghost predicate ReceiverEffect(s: Q.State, s': Q.State, queued: seq<BufferId>, completed: seq<BufferId>) {
    && s'.q.queued == queued && s'.q.completed == completed
    && forall b: BufferId :: b in s.q.queued ==> At(s'.q, b).size == At(s.q, b).size
  }

  lemma ReceiverCompletes(s: Q.State, bytes: Size)
    requires Q.Inv(s) && !s.q.aborted && s.posted != []
    ensures s.q.queued != [] && s.posted[0] == s.q.queued[0] && s.posted[0] !in s.q.completed
    ensures ReceiverEffect(s, Q.Next(s, Q.Complete(bytes, SUCCESS)), s.q.queued[1..],
                           if s.q.putBack then s.q.completed else s.q.completed + [s.posted[0]])
  {
    Q.DropFirst(s.posted, Q.Listed(s.userPost), Q.Listed(s.creditPost), s.q.queued);
    assert s.posted[0] in s.q.queued;
    Q.OnePlace(s.q, s.posted[0]);
  }

  lemma ReceiverStep(s: Q.State, ev: Q.Event)
    requires !s.q.aborted && Q.Enabled(s, ev)
    requires ev.UserPosts? || ev.AcquireIdle? || ev.ReleaseToIdle? || ev.AcquireCompleted? || ev.CallBack?
    ensures ReceiverEffect(s, Q.Next(s, ev), s.q.queued,
              if ev.AcquireCompleted? && TakeCompleted(s.q, ev.phase).Taken? then s.q.completed[1..] else s.q.completed)
  {
  }

  lemma QuietReceiverFlows(s: System, s': System)
    requires Flows(s) && ReceiverEffect(s.rcv, s'.rcv, s.rcv.q.queued, s.rcv.q.completed) && s' == s.(rcv := s'.rcv)
    ensures Flows(s')
  {
    SizesFrame(s.rcv.q, s'.rcv.q, s.rcv.q.queued);
  }

  lemma TakeFlows(s: System, s': System)
    requires Flows(s) && s.rcv.q.completed != []
    requires ReceiverEffect(s.rcv, s'.rcv, s.rcv.q.queued, s.rcv.q.completed[1..])
    requires s' == s.(rcv := s'.rcv, delivered := s.delivered + [Held(s.rcvData, s.rcv.q.completed[0])])
    ensures Flows(s')
  {
    SizesFrame(s.rcv.q, s'.rcv.q, s.rcv.q.queued);
    assert Completed(s) == [Held(s.rcvData, s.rcv.q.completed[0])] + Completed(s');
  }

  /** The oldest message on the wire fills the oldest receive. */
  ghost predicate ArriveShape(s: System, s': System, b: BufferId) {
    && s.rcv.q.queued != [] && b == s.rcv.q.queued[0] && s.wire != [] && s.inFlight != [] && b !in s.rcv.q.completed
    && (s.rcv.q.putBack ==> s.rcv.q.completed == [])
    && ReceiverEffect(s.rcv, s'.rcv, s.rcv.q.queued[1..],
                      if s.rcv.q.putBack then s.rcv.q.completed else s.rcv.q.completed + [b])
    && s' == s.(rcv := s'.rcv, rcvData := s.rcvData[b := s.wire[0]], wire := s.wire[1..], inFlight := s.inFlight[1..],
                delivered := if s.rcv.q.putBack then s.delivered + [s.wire[0]] else s.delivered)
  }

  lemma ArriveConserves(s: System, s': System, b: BufferId)
    requires Conserved(s) && ArriveShape(s, s', b)
    ensures Conserved(s')
  {
    SizesFrame(s.rcv.q, s'.rcv.q, s.rcv.q.queued);
    assert Sizes(s'.rcv.q, s'.rcv.q.queued) == Sizes(s.rcv.q, s.rcv.q.queued)[1..];
    DropHead(s.inFlight, s.snd.q.credits + (s.pre + (s.ack + (DecodeAll(s.creditWire) + s.unannounced))));
  }

  lemma DropHead(a: seq<Size>, rest: seq<Size>)
    requires a != []
    ensures (a + rest)[1..] == a[1..] + rest
  {
  }

  lemma FirstOnWire(wire: seq<Payload>, later: seq<Payload>)
    requires wire != []
    ensures wire + later == [wire[0]] + (wire[1..] + later)
  {
  }

  lemma ArriveCompletes(s: System, s': System, b: BufferId)
    requires ArriveShape(s, s', b)
    ensures Completed(s') == if s.rcv.q.putBack then [] else Completed(s) + [s.wire[0]]
    ensures Travelling(s) == [s.wire[0]] + Travelling(s') && Waiting(s') == Waiting(s)
  {
    HeldByFrame(s.rcvData, s'.rcvData, s.rcv.q.completed);
    FirstOnWire(s.wire, HeldBy(s.sndData, Q.Unposted(s.snd)));
    if !s.rcv.q.putBack {
      HeldBySnoc(s'.rcvData, s.rcv.q.completed, b);
    }
  }

  lemma ArriveStreams(s: System, s': System, b: BufferId)
    requires Streamed(s) && ArriveShape(s, s', b)
    ensures Streamed(s')
  {
    ArriveCompletes(s, s', b);
    var w, later, end := [s.wire[0]], Travelling(s'), Waiting(s);
    if s.rcv.q.putBack {
      assert Completed(s) == [];
      TakeOver(s.delivered, w, later, end);
    } else {
      Shift(Completed(s), w, later, end);
    }
    assert Stream(s') == Stream(s);
  }

  lemma TakeOver(a: seq<Payload>, w: seq<Payload>, later: seq<Payload>, end: seq<Payload>)
    ensures a + ([] + ((w + later) + end)) == (a + w) + ([] + (later + end))
  {
  }

  lemma ArriveFits(s: System, s': System, b: BufferId)
    requires Fits(s) && ArriveShape(s, s', b)
    ensures Fits(s')
  {
    FirstOnWire(s.wire, HeldBy(s.sndData, Q.Unposted(s.snd)));
    CoveredTail(s.wire[0], Travelling(s'), s.inFlight);
  }

  lemma CoveredTail(first: Payload, data: seq<Payload>, credits: seq<Size>)
    requires credits != [] && Covered([first] + data, credits)
    ensures Covered(data, credits[1..])
  {
    forall i | 0 <= i < |data|
      ensures |data[i]| <= credits[1..][i]
    {
      assert ([first] + data)[i + 1] == data[i];
    }
  }

  lemma SubmittingReceive(s: Q.State, b: BufferId, buffer: Buffer)
    requires Q.Inv(s) && s.q.direction == Receive && !s.q.aborted && s.userPost.None? && b in s.q.user
    ensures var s' := Submitting(s, b, buffer);
            && ReceiverEffect(s, s', s.q.queued + Q.Listed(s'.userPost), s.q.completed)
            && (s'.userPost.Some? ==> s'.userPost.value == b && At(s'.q, b).size == buffer.size)
  {
    Q.OnePlace(s.q, b);
  }

  lemma PostReceiveFlows(s: System, s': System, b: BufferId, buffer: Buffer)
    requires Flows(s) && ReceiverEffect(s.rcv, s'.rcv, s.rcv.q.queued + Q.Listed(s'.rcv.userPost), s.rcv.q.completed)
    requires s'.rcv.userPost.Some? ==> s'.rcv.userPost.value == b && At(s'.rcv.q, b).size == buffer.size
    requires s' == s.(rcv := s'.rcv, unannounced := s'.unannounced)
    requires s'.unannounced == if s'.rcv.userPost.Some? then s.unannounced + [buffer.size] else s.unannounced
    ensures Flows(s')
  {
    SizesFrame(s.rcv.q, s'.rcv.q, s.rcv.q.queued);
    if s'.rcv.userPost.Some? {
      SizesSnoc(s'.rcv.q, s.rcv.q.queued, b);
      assert Promised(s') == Promised(s) + [buffer.size];
    }
  }
}
