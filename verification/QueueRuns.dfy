/**
 Every run of one buffer queue together with its queue pair. Each event is one
 `queueLock` section, a post to the queue pair or a call of a callback (which
 happen outside the lock), or a completion reported by the queue pair in post
 order.
 */
module QueueRuns {
  import opened QueueModel

  /** A buffer that was accepted for transfer, with the callback and the number of bytes it carried. */
  datatype Submission = Submission(b: BufferId, callback: Option<Callback>, used: Size)

  /** The thread that brings credits ends with the first one that fails; between the two it records the failure. */
  datatype CreditThread = Alive | Failing | Dead

  /** Submission number `at` overtook the `over` ones just before it. */
  datatype Jump = Jump(at: nat, over: nat)

  /** Callbacks are collected under the lock and called later. `hand` is what the completion thread has collected and
      not yet called, `abortHand` the same for the aborting thread, `called` the calls made; all by number, in the order
      of collection. The first `byCompletion` were collected by completions, the others by the abort. The completion
      thread may collect again before it has called, which is more than the library does. */
  datatype Calling = Calling(byCompletion: nat, hand: seq<nat>, abortHand: seq<nat>, called: seq<nat>)

  /** `posted` is what the queue pair holds, oldest first. `userPost` and `creditPost` are buffers that the user thread
      and the credit thread have queued but not yet posted. The rest are records: accepted and finished submissions,
      callbacks collected and called, buffers completed, completed buffers taken by the user, and whether a submission
      has overtaken others. `crashed` says that the in-order assertion of a completion has failed. */
  datatype State = State(
    q: Queue,
    posted: seq<BufferId>,
    userPost: Option<BufferId>,
    creditPost: Option<BufferId>,
    thread: CreditThread,
    submitted: seq<Submission>,
    finished: seq<Submission>,
    collected: seq<Fired>,
    calls: Calling,
    done: seq<BufferId>,
    taken: seq<BufferId>,
    jump: Option<Jump>,
    crashed: bool)

  datatype Event =
    | Submit(b: BufferId)
    | UserPosts
    | Credit(credit: Size)
    | CreditPosts
    | FailureRecorded
    | Complete(bytes: Size, code: int)
    | DoAbort(code: int)
    | CallBack(aborting: bool)
    | AcquireIdle(phase: Phase)
    | AcquireCompleted(phase: Phase)
    | ReleaseToIdle(b: BufferId)
    | Prepare(b: BufferId, buffer: Buffer)

  function Init(q: Queue): State {
    State(q, [], None, None, Alive, [], [], [], Calling(0, [], [], []), [], [], None, false)
  }

  function From(n: nat, count: nat): seq<nat> {
    seq(count, i requires 0 <= i => n + i)
  }

  ghost function Listed<T>(o: Option<T>): seq<T> {
    if o.Some? then [o.value] else []
  }

  predicate Gated(q: Queue) {
    q.direction == Send && !q.ignoreCredits
  }

  /** One user thread and one credit thread post; the user prepares only buffers it holds; aborts carry an error. */
  predicate Enabled(s: State, ev: Event) {
    match ev
    case Submit(_) => s.userPost.None?
    case UserPosts => s.userPost.Some?
    case Credit(_) => s.thread.Alive? && s.creditPost.None? && Gated(s.q)
    case CreditPosts => s.creditPost.Some?
    case FailureRecorded => s.thread.Failing?
    case Complete(_, _) => s.posted != []
    case DoAbort(code) => code != SUCCESS
    case CallBack(aborting) => if aborting then s.calls.abortHand != [] else s.calls.hand != []
    case Prepare(b, _) => b in s.q.user
    case _ => true
  }

  function Submitted(q: Queue, bs: seq<BufferId>): seq<Submission> {
    seq(|bs|, i requires 0 <= i < |bs| => Submission(bs[i], At(q, bs[i]).callback, At(q, bs[i]).used))
  }

  function Next(s: State, ev: Event): State
    requires Enabled(s, ev)
  {
    match ev
    case Submit(b) =>
      var o := QueueBuffer(s.q, b);
      s.(q := o.q, userPost := o.post,
         submitted := if o.code == SUCCESS then s.submitted + Submitted(s.q, [b]) else s.submitted,
         jump := if o.post.Some? && s.q.waiting != [] then Some(Jump(|s.submitted|, |s.q.waiting|)) else s.jump)
    case UserPosts => s.(posted := s.posted + [s.userPost.value], userPost := None)
    case Credit(credit) =>
      var o := AddCredit(s.q, credit);
      s.(q := o.q, creditPost := o.post, thread := if o.code == SUCCESS then Alive else Failing)
    case CreditPosts => s.(posted := s.posted + [s.creditPost.value], creditPost := None)
    case FailureRecorded => s.(q := RecordFailure(s.q), thread := Dead)
    case Complete(bytes, code) =>
      var b := s.posted[0];
      if !s.q.aborted && (s.q.queued == [] || s.q.queued[0] != b) then s.(crashed := true) else
      var o := HandleCompletion(s.q, b, bytes, code);
      var s' := s.(q := o.q, posted := s.posted[1..], collected := s.collected + o.fired,
                   calls := s.calls.(byCompletion := s.calls.byCompletion + |o.fired|,
                                     hand := s.calls.hand + From(|s.collected|, |o.fired|)));
      if s.q.aborted then s'
      else s'.(finished := s.finished + Submitted(s.q, [b]),
               done := if s.q.putBack then s.done else s.done + [b])
    case DoAbort(code) =>
      var o := Abort(s.q, code);
      s.(q := o.q, collected := s.collected + o.fired,
         calls := s.calls.(abortHand := s.calls.abortHand + From(|s.collected|, |o.fired|)),
         finished := s.finished + Submitted(s.q, s.q.queued + s.q.waiting))
    case CallBack(aborting) =>
      var c := s.calls;
      s.(calls := if aborting then c.(called := c.called + [c.abortHand[0]], abortHand := c.abortHand[1..])
                  else c.(called := c.called + [c.hand[0]], hand := c.hand[1..]))
    case AcquireIdle(phase) => var o := TakeIdle(s.q, phase); if o.Taken? then s.(q := o.q) else s
    case AcquireCompleted(phase) =>
      var o := TakeCompleted(s.q, phase); if o.Taken? then s.(q := o.q, taken := s.taken + [o.b]) else s
    case ReleaseToIdle(b) => s.(q := ReleaseBuffer(s.q, b).q)
    case Prepare(b, buffer) => s.(q := Set(s.q, b, buffer))
  }

  ghost predicate IsRun(s: State, evs: seq<Event>)
    decreases |evs|
  {
    evs == [] || (Enabled(s, evs[0]) && IsRun(Next(s, evs[0]), evs[1..]))
  }

  ghost function After(s: State, evs: seq<Event>): State
    requires IsRun(s, evs)
    decreases |evs|
  {
    if evs == [] then s else After(Next(s, evs[0]), evs[1..])
  }

  // ---------------------------------------------------------------- the invariant

  ghost function Occurrences(s: seq<BufferId>, b: BufferId): nat {
    if s == [] then 0 else (if s[0] == b then 1 else 0) + Occurrences(s[1..], b)
  }

  ghost function Places(q: Queue, b: BufferId): nat {
    Occurrences(q.idle, b) + Occurrences(q.user, b) + Occurrences(q.waiting, b)
    + Occurrences(q.queued, b) + Occurrences(q.completed, b)
  }

  /** Every buffer of the pool is in exactly one of the five places, and nothing else is. */
  ghost predicate Partitioned(q: Queue) {
    forall b: BufferId :: Places(q, b) == if b < |q.buffers| then 1 else 0
  }

  ghost predicate QueueOk(q: Queue) {
    && Partitioned(q)
    && (q.aborted ==> q.queued == [] && q.waiting == [] && q.status != SUCCESS)
    && (!Gated(q) ==> q.waiting == [])
    && (q.putBack ==> q.completed == [])
  }

  /** Somebody waits beside a credit only while its failure is unrecorded. Only then can a submission overtake, and
      only one, since the failing credit is the last. */
  ghost predicate CreditOk(s: State) {
    && (s.q.waiting != [] && s.q.credits != [] && s.q.status == SUCCESS ==> s.thread.Failing?)
    && (s.thread.Failing? ==> s.creditPost.None? && Gated(s.q))
    && (s.thread.Failing? && s.q.status == SUCCESS ==>
          && s.q.waiting != [] && |s.q.credits| <= 1
          && (s.q.credits != [] ==> At(s.q, s.q.waiting[0]).used > s.q.credits[0]))
    && (s.thread.Dead? ==> s.creditPost.None? && s.q.status != SUCCESS)
    && (s.jump.Some? ==> !s.thread.Alive? && (s.q.credits == [] || s.q.status != SUCCESS))
  }

  /** Until an abort, what is queued is what the queue pair holds plus at most one buffer about to be posted. */
  ghost predicate InPostOrder(s: State) {
    && (!Gated(s.q) ==> s.creditPost.None?)
    && (!s.q.aborted ==>
          && s.q.queued == s.posted + Listed(s.userPost) + Listed(s.creditPost)
          && (s.userPost.Some? ==> s.creditPost.None? && (s.q.waiting == [] || !s.thread.Alive?))
          && (s.creditPost.Some? ==> s.q.credits == [] || s.q.status != SUCCESS))
  }

  ghost function Calls(subs: seq<Submission>): seq<Callback> {
    if subs == [] then [] else Listed(subs[0].callback) + Calls(subs[1..])
  }

  ghost function Callbacks(fired: seq<Fired>): seq<Callback> {
    seq(|fired|, i requires 0 <= i < |fired| => fired[i].callback)
  }

  /** The accepted submissions in the order in which they are or will be served. */
  ghost function Order(s: State): seq<Submission> {
    s.finished + Submitted(s.q, s.q.queued + s.q.waiting)
  }

  /** The order of submission, but for the one that overtook others. */
  ghost function Reordered<T>(s: seq<T>, jump: Option<Jump>): seq<T> {
    if jump.Some? && jump.value.over <= jump.value.at < |s| then
      var j := jump.value;
      s[..j.at - j.over] + [s[j.at]] + s[j.at - j.over..j.at] + s[j.at + 1..]
    else s
  }

  /** One that overtakes is smaller than the first it overtakes. */
  ghost predicate JumpOk(submitted: seq<Submission>, jump: Option<Jump>) {
    jump.Some? ==>
      && 0 < jump.value.over <= jump.value.at < |submitted|
      && submitted[jump.value.at].used < submitted[jump.value.at - jump.value.over].used
  }

  ghost predicate Recorded(s: State) {
    && JumpOk(s.submitted, s.jump)
    && Order(s) == Reordered(s.submitted, s.jump)
    && Callbacks(s.collected) == Calls(s.finished)
    && s.taken + s.q.completed == s.done
  }

  ghost predicate Inv(s: State) {
    QueueOk(s.q) && CreditOk(s) && InPostOrder(s) && Recorded(s) && !s.crashed
  }

  /** What has been queued but not yet posted. */
  ghost function Unposted(s: State): seq<BufferId> {
    Listed(s.userPost) + Listed(s.creditPost)
  }

  /** Even after an abort, no buffer that the queue pair holds or is about to hold is in the user's hands or completed,
      and only one thread is about to post. */
  ghost predicate Detached(s: State) {
    && (s.userPost.None? || s.creditPost.None?)
    && forall b: BufferId :: b in s.posted || b in Unposted(s) ==> b !in s.q.user && b !in s.q.completed
  }

  // ---------------------------------------------------------------- facts about the pool

  lemma {:induction false} OccursConcat(s: seq<BufferId>, t: seq<BufferId>, b: BufferId)
    ensures Occurrences(s + t, b) == Occurrences(s, b) + Occurrences(t, b)
  {
    if s == [] {
      assert s + t == t;
    } else {
      assert (s + t)[1..] == s[1..] + t;
      OccursConcat(s[1..], t, b);
    }
  }

  lemma OccursSnoc(s: seq<BufferId>, c: BufferId, b: BufferId)
    ensures Occurrences(s + [c], b) == Occurrences(s, b) + if c == b then 1 else 0
  {
    OccursConcat(s, [c], b);
  }

  lemma {:induction false} OccursIn(s: seq<BufferId>, b: BufferId)
    ensures b in s <==> Occurrences(s, b) > 0
  {
    if s != [] {
      OccursIn(s[1..], b);
    }
  }

  lemma {:induction false} OccursUnlink(s: seq<BufferId>, c: BufferId, b: BufferId)
    requires c in s
    ensures Occurrences(Unlink(s, c), b) == Occurrences(s, b) - if c == b then 1 else 0
  {
    if s[0] != c {
      OccursUnlink(s[1..], c, b);
      assert Unlink(s, c)[1..] == Unlink(s[1..], c);
    }
  }

  lemma {:induction false} OccursPool(n: nat, b: BufferId)
    ensures Occurrences(Pool(n), b) == if b < n then 1 else 0
  {
    if n > 0 {
      OccursPool(n - 1, b);
      assert Pool(n) == Pool(n - 1) + [n - 1];
      OccursSnoc(Pool(n - 1), n - 1, b);
    }
  }

  /** A buffer in the user's hands, waiting, or queued is nowhere else. */
  lemma OnePlace(q: Queue, b: BufferId)
    requires Partitioned(q)
    ensures b in q.user ==> b < |q.buffers| && b !in q.queued && b !in q.waiting && b !in q.completed
    ensures b in q.waiting ==> b < |q.buffers| && b !in q.queued && b !in q.completed
    ensures b in q.queued ==> b < |q.buffers| && b !in q.completed
    ensures b in q.completed ==> b < |q.buffers|
    ensures q.queued != [] && b == q.queued[0] ==> b !in q.queued[1..]
    ensures q.completed != [] && b == q.completed[0] ==> b !in q.completed[1..]
  {
    assert Places(q, b) <= 1;
    OccursIn(q.user, b);
    OccursIn(q.waiting, b);
    OccursIn(q.queued, b);
    OccursIn(q.completed, b);
    if q.queued != [] {
      OccursIn(q.queued[1..], b);
    }
    if q.completed != [] {
      OccursIn(q.completed[1..], b);
    }
  }

  /** Changing a buffer that is not listed does not change what the listed ones carry. */
  lemma SubmittedFrame(q: Queue, q': Queue, bs: seq<BufferId>)
    requires forall b :: b in bs ==> At(q', b) == At(q, b)
    ensures Submitted(q', bs) == Submitted(q, bs)
  {
  }

  lemma SubmittedConcat(q: Queue, bs: seq<BufferId>, cs: seq<BufferId>)
    ensures Submitted(q, bs + cs) == Submitted(q, bs) + Submitted(q, cs)
  {
  }

  lemma CallsConcat(subs: seq<Submission>, more: seq<Submission>)
    ensures Calls(subs + more) == Calls(subs) + Calls(more)
  {
    if subs == [] {
      assert subs + more == more;
    } else {
      assert (subs + more)[1..] == subs[1..] + more;
      CallsConcat(subs[1..], more);
    }
  }

  lemma {:induction false} FireAllCalls(q: Queue, bs: seq<BufferId>, code: int)
    ensures Callbacks(FireAll(q, bs, code)) == Calls(Submitted(q, bs))
  {
    if bs != [] {
      FireAllCalls(q, bs[1..], code);
      assert Submitted(q, bs)[1..] == Submitted(q, bs[1..]);
    }
  }

  // ---------------------------------------------------------------- the pool

  /** No call loses or duplicates a buffer, whether it succeeds or fails. */
  lemma SubmitMoves(q: Queue, c: BufferId)
    requires Partitioned(q)
    ensures Partitioned(QueueBuffer(q, c).q)
  {
    var q' := QueueBuffer(q, c).q;
    forall b: BufferId
      ensures Places(q', b) == Places(q, b)
    {
      if QueueBuffer(q, c).code == SUCCESS {
        OccursUnlink(q.user, c, b);
        OccursSnoc(q.queued, c, b);
        OccursSnoc(q.waiting, c, b);
      }
    }
  }

  lemma CreditMoves(q: Queue, credit: Size)
    requires Partitioned(q)
    ensures Partitioned(AddCredit(q, credit).q)
  {
    var q' := AddCredit(q, credit).q;
    forall b: BufferId
      ensures Places(q', b) == Places(q, b)
    {
      if q.waiting != [] {
        OccursSnoc(q.queued, q.waiting[0], b);
      }
    }
  }

  lemma CompletionMoves(q: Queue, c: BufferId, bytes: Size, code: int)
    requires Partitioned(q) && (!q.aborted ==> q.queued != [] && q.queued[0] == c)
    ensures Partitioned(HandleCompletion(q, c, bytes, code).q)
  {
    var q' := HandleCompletion(q, c, bytes, code).q;
    forall b: BufferId
      ensures Places(q', b) == Places(q, b)
    {
      OccursSnoc(q.idle, c, b);
      OccursSnoc(q.completed, c, b);
    }
  }

  lemma AbortMoves(q: Queue, code: int)
    requires Partitioned(q)
    ensures Partitioned(Abort(q, code).q)
  {
    var q' := Abort(q, code).q;
    forall b: BufferId
      ensures Places(q', b) == Places(q, b)
    {
      OccursConcat(q.queued, q.waiting, b);
      OccursConcat(q.idle, q.queued + q.waiting, b);
    }
  }

  lemma TakeMoves(q: Queue, phase: Phase)
    requires Partitioned(q)
    ensures TakeIdle(q, phase).Taken? ==> Partitioned(TakeIdle(q, phase).q)
    ensures TakeCompleted(q, phase).Taken? ==> Partitioned(TakeCompleted(q, phase).q)
  {
    if TakeIdle(q, phase).Taken? {
      var q' := TakeIdle(q, phase).q;
      forall b: BufferId
        ensures Places(q', b) == Places(q, b)
      {
        OccursSnoc(q.user, q.idle[0], b);
      }
    }
    if TakeCompleted(q, phase).Taken? {
      var q' := TakeCompleted(q, phase).q;
      forall b: BufferId
        ensures Places(q', b) == Places(q, b)
      {
        OccursSnoc(q.user, q.completed[0], b);
      }
    }
  }

  lemma ReleaseMoves(q: Queue, c: BufferId)
    requires Partitioned(q)
    ensures Partitioned(ReleaseBuffer(q, c).q)
  {
    var q' := ReleaseBuffer(q, c).q;
    forall b: BufferId
      ensures Places(q', b) == Places(q, b)
    {
      if c in q.user {
        OccursUnlink(q.user, c, b);
        OccursSnoc(q.idle, c, b);
      }
    }
  }

  lemma PrepareMoves(q: Queue, c: BufferId, buffer: Buffer)
    requires Partitioned(q)
    ensures Partitioned(Set(q, c, buffer))
  {
    forall b: BufferId
      ensures Places(Set(q, c, buffer), b) == Places(q, b)
    {
    }
  }

  // ---------------------------------------------------------------- every event keeps the invariant

  lemma ReorderedSnoc<T>(s: seq<T>, jump: Option<Jump>, x: T)
    requires jump.Some? ==> jump.value.at < |s|
    ensures Reordered(s + [x], jump) == Reordered(s, jump) + [x]
  {
    if jump.Some? && jump.value.over <= jump.value.at {
      var j := jump.value;
      assert (s + [x])[j.at + 1..] == s[j.at + 1..] + [x];
      assert (s + [x])[..j.at - j.over] == s[..j.at - j.over];
      assert (s + [x])[j.at - j.over..j.at] == s[j.at - j.over..j.at];
    }
  }

  /** A submission that joins the end of the line. */
  lemma JoinRecords(s: State, s': State, b: BufferId)
    requires Recorded(s) && s'.finished == s.finished && s'.jump == s.jump
    requires s'.submitted == s.submitted + Submitted(s.q, [b])
    requires forall c: BufferId :: At(s'.q, c) == At(s.q, c)
    requires s'.q.queued + s'.q.waiting == (s.q.queued + s.q.waiting) + [b]
    ensures JumpOk(s'.submitted, s'.jump) && Order(s') == Reordered(s'.submitted, s'.jump)
  {
    var line := s.q.queued + s.q.waiting;
    SubmittedConcat(s.q, line, [b]);
    SubmittedFrame(s.q, s'.q, line + [b]);
    ReorderedSnoc(s.submitted, s.jump, Submitted(s.q, [b])[0]);
    assert Submitted(s.q, [b]) == [Submitted(s.q, [b])[0]];
  }

  lemma ReorderedNew<T>(first: seq<T>, last: seq<T>, x: T)
    requires last != []
    ensures Reordered((first + last) + [x], Some(Jump(|first + last|, |last|))) == first + [x] + last
  {
    var s := (first + last) + [x];
    assert s[..|first|] == first && s[|first|..|first + last|] == last && s[|first + last| + 1..] == [];
  }

  lemma InsertedOrder(q: Queue, finished: seq<Submission>, queued: seq<BufferId>, b: BufferId, waiting: seq<BufferId>)
    ensures var x := Submitted(q, [b])[0];
            && Submitted(q, [b]) == [x]
            && finished + Submitted(q, queued + waiting) == (finished + Submitted(q, queued)) + Submitted(q, waiting)
            && finished + Submitted(q, queued + [b] + waiting)
               == (finished + Submitted(q, queued)) + [x] + Submitted(q, waiting)
  {
    SubmittedConcat(q, queued, waiting);
    SubmittedConcat(q, queued + [b], waiting);
    SubmittedConcat(q, queued, [b]);
  }

  /** A submission that overtakes the waiting ones. */
  lemma OvertakeRecords(s: State, s': State, b: BufferId)
    requires Recorded(s) && s.jump.None? && s'.finished == s.finished
    requires s.q.waiting != [] && At(s.q, b).used < At(s.q, s.q.waiting[0]).used
    requires s'.jump == Some(Jump(|s.submitted|, |s.q.waiting|))
    requires s'.submitted == s.submitted + Submitted(s.q, [b])
    requires forall c: BufferId :: At(s'.q, c) == At(s.q, c)
    requires s'.q.queued == s.q.queued + [b] && s'.q.waiting == s.q.waiting
    ensures JumpOk(s'.submitted, s'.jump) && Order(s') == Reordered(s'.submitted, s'.jump)
  {
    var first, last, x := s.finished + Submitted(s.q, s.q.queued), Submitted(s.q, s.q.waiting), Submitted(s.q, [b])[0];
    InsertedOrder(s.q, s.finished, s.q.queued, b, s.q.waiting);
    SubmittedFrame(s.q, s'.q, s.q.queued + [b] + s.q.waiting);
    ReorderedNew(first, last, x);
    assert s'.submitted == (first + last) + [x];
    assert s'.submitted[|first|] == last[0];
  }

  /** What a successful submission does to the line. */
  lemma SubmitRecords(s: State, b: BufferId)
    requires QueueOk(s.q) && CreditOk(s) && Recorded(s)
    requires Enabled(s, Submit(b)) && QueueBuffer(s.q, b).code == SUCCESS
    ensures Recorded(Next(s, Submit(b)))
  {
    var s' := Next(s, Submit(b));
    if s'.userPost.Some? && s.q.waiting != [] {
      OvertakeRecords(s, s', b);
    } else {
      assert s'.q.queued + s'.q.waiting == (s.q.queued + s.q.waiting) + [b];
      JoinRecords(s, s', b);
    }
  }

  lemma SubmitOrders(s: State, b: BufferId)
    requires QueueOk(s.q) && CreditOk(s) && InPostOrder(s) && Enabled(s, Submit(b))
    ensures CreditOk(Next(s, Submit(b))) && InPostOrder(Next(s, Submit(b)))
  {
  }

  lemma SubmitKeeps(s: State, b: BufferId)
    requires Inv(s) && Enabled(s, Submit(b))
    ensures Inv(Next(s, Submit(b)))
  {
    SubmitMoves(s.q, b);
    SubmitOrders(s, b);
    if QueueBuffer(s.q, b).code == SUCCESS {
      SubmitRecords(s, b);
    } else {
      RecordsFrame(s, Next(s, Submit(b)));
    }
  }

  /** A step that leaves the line as it is leaves the records as they are. */
  lemma RecordsFrame(s: State, s': State)
    requires Recorded(s) && s'.finished == s.finished && s'.submitted == s.submitted && s'.jump == s.jump
    requires s'.q.queued + s'.q.waiting == s.q.queued + s.q.waiting && s'.collected == s.collected
    requires forall b: BufferId :: b in s.q.queued + s.q.waiting ==> At(s'.q, b) == At(s.q, b)
    requires s'.taken + s'.q.completed == s'.done
    ensures Recorded(s')
  {
    SubmittedFrame(s.q, s'.q, s.q.queued + s.q.waiting);
  }

  /** A step that only moves buffers among idle, user and completed, or changes what the user holds. */
  lemma AsideKeeps(s: State, s': State)
    requires Inv(s) && Partitioned(s'.q)
    requires s'.q == s.q.(buffers := s'.q.buffers, idle := s'.q.idle, user := s'.q.user, completed := s'.q.completed)
    requires s' == s.(q := s'.q, taken := s'.taken)
    requires forall b: BufferId :: b in s.q.queued + s.q.waiting ==> At(s'.q, b) == At(s.q, b)
    requires s'.taken + s'.q.completed == s'.done && (s.q.putBack ==> s'.q.completed == [])
    ensures Inv(s')
  {
    RecordsFrame(s, s');
  }

  lemma CreditKeeps(s: State, credit: Size)
    requires Inv(s) && Enabled(s, Credit(credit))
    ensures Inv(Next(s, Credit(credit)))
  {
    var s' := Next(s, Credit(credit));
    CreditMoves(s.q, credit);
    assert s'.q.queued + s'.q.waiting == s.q.queued + s.q.waiting;
    RecordsFrame(s, s');
  }

  /** Finishing the oldest of a line of submissions leaves the others as they were. */
  lemma FinishOldest(q: Queue, q': Queue, b: BufferId, rest: seq<BufferId>, finished: seq<Submission>)
    requires b !in rest
    requires forall c: BufferId :: c != b ==> At(q', c) == At(q, c)
    ensures finished + Submitted(q, [b] + rest) == (finished + Submitted(q, [b])) + Submitted(q', rest)
  {
    SubmittedConcat(q, [b], rest);
    SubmittedFrame(q, q', rest);
  }

  lemma FireOne(q: Queue, b: BufferId, code: int, bytes: Size, fired: seq<Fired>, finished: seq<Submission>)
    requires Callbacks(fired) == Calls(finished)
    ensures Callbacks(fired + Fire(q, b, code, bytes)) == Calls(finished + Submitted(q, [b]))
  {
    CallsConcat(finished, Submitted(q, [b]));
    assert Submitted(q, [b])[1..] == [];
  }

  /** Finishing the oldest queued buffer leaves the order of service as it was. */
  lemma FinishOrder(s: State, s': State, b: BufferId)
    requires s.q.queued != [] && b == s.q.queued[0] && b !in s.q.queued[1..] && b !in s.q.waiting
    requires s'.q.queued == s.q.queued[1..] && s'.q.waiting == s.q.waiting
    requires s'.finished == s.finished + Submitted(s.q, [b])
    requires forall c: BufferId :: c != b ==> At(s'.q, c) == At(s.q, c)
    ensures Order(s') == Order(s)
  {
    var rest := s.q.queued[1..] + s.q.waiting;
    assert s.q.queued + s.q.waiting == [b] + rest;
    FinishOldest(s.q, s'.q, b, rest, s.finished);
  }

  /** What a completion before an abort does to the records. */
  ghost predicate Finishes(s: State, s': State, b: BufferId, bytes: Size, code: int) {
    && s.q.queued != [] && b == s.q.queued[0]
    && s'.q.queued == s.q.queued[1..] && s'.q.waiting == s.q.waiting
    && s'.finished == s.finished + Submitted(s.q, [b]) && s'.submitted == s.submitted && s'.jump == s.jump
    && s'.collected == s.collected + Fire(s.q, b, code, bytes)
    && (s.taken + s.q.completed == s.done ==> s'.taken + s'.q.completed == s'.done)
    && forall c: BufferId :: c != b ==> At(s'.q, c) == At(s.q, c)
  }

  lemma CompleteFinishes(s: State, bytes: Size, code: int)
    requires InPostOrder(s) && Enabled(s, Complete(bytes, code)) && !s.q.aborted
    ensures Finishes(s, Next(s, Complete(bytes, code)), s.posted[0], bytes, code)
  {
    DropFirst(s.posted, Listed(s.userPost), Listed(s.creditPost), s.q.queued);
  }

  lemma FinishRecords(s: State, s': State, b: BufferId, bytes: Size, code: int)
    requires Finishes(s, s', b, bytes, code) && Recorded(s) && b !in s.q.queued[1..] && b !in s.q.waiting
    ensures Recorded(s')
  {
    assert Order(s') == Order(s) by { FinishOrder(s, s', b); }
    FireOne(s.q, b, code, bytes, s.collected, s.finished);
  }

  lemma CompleteRecords(s: State, bytes: Size, code: int)
    requires QueueOk(s.q) && InPostOrder(s) && Recorded(s) && Enabled(s, Complete(bytes, code)) && !s.q.aborted
    ensures Recorded(Next(s, Complete(bytes, code)))
  {
    var b := s.posted[0];
    CompleteFinishes(s, bytes, code);
    assert b !in s.q.queued[1..] && b !in s.q.waiting by {
      assert b in s.q.queued;
      OnePlace(s.q, b);
    }
    FinishRecords(s, Next(s, Complete(bytes, code)), b, bytes, code);
  }

  lemma DropFirst(posted: seq<BufferId>, later: seq<BufferId>, last: seq<BufferId>, queued: seq<BufferId>)
    requires posted != [] && queued == posted + later + last
    ensures queued != [] && queued[0] == posted[0] && queued[1..] == posted[1..] + later + last
  {
  }

  lemma CompleteOrders(s: State, bytes: Size, code: int)
    requires QueueOk(s.q) && CreditOk(s) && InPostOrder(s) && !s.crashed && Enabled(s, Complete(bytes, code))
    ensures var s' := Next(s, Complete(bytes, code)); CreditOk(s') && InPostOrder(s') && !s'.crashed
  {
    if !s.q.aborted {
      DropFirst(s.posted, Listed(s.userPost), Listed(s.creditPost), s.q.queued);
      assert s.posted[0] !in s.q.waiting by {
        assert s.posted[0] in s.q.queued;
        OnePlace(s.q, s.posted[0]);
      }
    }
  }

  lemma CompletePool(s: State, bytes: Size, code: int)
    requires QueueOk(s.q) && InPostOrder(s) && Enabled(s, Complete(bytes, code))
    ensures QueueOk(Next(s, Complete(bytes, code)).q)
  {
    if !s.q.aborted {
      DropFirst(s.posted, Listed(s.userPost), Listed(s.creditPost), s.q.queued);
    }
    CompletionMoves(s.q, s.posted[0], bytes, code);
  }

  lemma LateCompletionRecords(s: State, bytes: Size, code: int)
    requires QueueOk(s.q) && Recorded(s) && Enabled(s, Complete(bytes, code)) && s.q.aborted
    ensures Recorded(Next(s, Complete(bytes, code)))
  {
    assert s.collected + [] == s.collected;
    RecordsFrame(s, Next(s, Complete(bytes, code)));
  }

  lemma CompleteKeeps(s: State, bytes: Size, code: int)
    requires Inv(s) && Enabled(s, Complete(bytes, code))
    ensures Inv(Next(s, Complete(bytes, code)))
  {
    CompletePool(s, bytes, code);
    CompleteOrders(s, bytes, code);
    if s.q.aborted {
      LateCompletionRecords(s, bytes, code);
    } else {
      CompleteRecords(s, bytes, code);
    }
  }

  lemma FireMany(q: Queue, bs: seq<BufferId>, code: int, fired: seq<Fired>, finished: seq<Submission>)
    requires Callbacks(fired) == Calls(finished)
    ensures Callbacks(fired + FireAll(q, bs, code)) == Calls(finished + Submitted(q, bs))
  {
    FireAllCalls(q, bs, code);
    CallsConcat(finished, Submitted(q, bs));
  }

  lemma AbortRecords(s: State, code: int)
    requires Recorded(s) && (s.q.aborted ==> s.q.queued == [] && s.q.waiting == []) && Enabled(s, DoAbort(code))
    ensures Recorded(Next(s, DoAbort(code)))
  {
    var s', gone := Next(s, DoAbort(code)), s.q.queued + s.q.waiting;
    FireMany(s.q, gone, code, s.collected, s.finished);
    assert Submitted(s'.q, []) == [] && s'.finished + [] == s'.finished;
    if s.q.aborted {
      assert FireAll(s.q, gone, code) == [] && s.collected + [] == s.collected;
    }
  }

  lemma AbortKeeps(s: State, code: int)
    requires Inv(s) && Enabled(s, DoAbort(code))
    ensures Inv(Next(s, DoAbort(code)))
  {
    AbortMoves(s.q, code);
    AbortRecords(s, code);
  }

  lemma TakeIdleKeeps(s: State, phase: Phase)
    requires Inv(s)
    ensures Inv(Next(s, AcquireIdle(phase)))
  {
    if TakeIdle(s.q, phase).Taken? {
      TakeMoves(s.q, phase);
      AsideKeeps(s, Next(s, AcquireIdle(phase)));
    }
  }

  lemma TakeFirst(taken: seq<BufferId>, completed: seq<BufferId>)
    requires completed != []
    ensures (taken + [completed[0]]) + completed[1..] == taken + completed
  {
  }

  lemma TakeCompletedKeeps(s: State, phase: Phase)
    requires Inv(s)
    ensures Inv(Next(s, AcquireCompleted(phase)))
  {
    if TakeCompleted(s.q, phase).Taken? {
      TakeMoves(s.q, phase);
      TakeFirst(s.taken, s.q.completed);
      AsideKeeps(s, Next(s, AcquireCompleted(phase)));
    }
  }

  lemma ReleaseKeeps(s: State, b: BufferId)
    requires Inv(s)
    ensures Inv(Next(s, ReleaseToIdle(b)))
  {
    if b in s.q.user {
      ReleaseMoves(s.q, b);
      AsideKeeps(s, Next(s, ReleaseToIdle(b)));
    }
  }

  lemma PrepareKeeps(s: State, b: BufferId, buffer: Buffer)
    requires Inv(s) && b in s.q.user
    ensures Inv(Next(s, Prepare(b, buffer)))
  {
    OnePlace(s.q, b);
    PrepareMoves(s.q, b, buffer);
    AsideKeeps(s, Next(s, Prepare(b, buffer)));
  }

  lemma SameLists(q: Queue, q': Queue)
    requires Partitioned(q) && q' == q.(credits := q'.credits, status := q'.status)
    ensures Partitioned(q')
  {
    forall b: BufferId
      ensures Places(q', b) == Places(q, b)
    {
    }
  }

  lemma FailureKeeps(s: State)
    requires Inv(s) && s.thread.Failing?
    ensures Inv(Next(s, FailureRecorded))
  {
    SameLists(s.q, RecordFailure(s.q));
    RecordsFrame(s, Next(s, FailureRecorded));
  }

  lemma StepKeeps(s: State, ev: Event)
    requires Inv(s) && Enabled(s, ev)
    ensures Inv(Next(s, ev))
  {
    match ev
    case Submit(b) => SubmitKeeps(s, b);
    case Credit(credit) => CreditKeeps(s, credit);
    case Complete(bytes, code) => CompleteKeeps(s, bytes, code);
    case DoAbort(code) => AbortKeeps(s, code);
    case AcquireIdle(phase) => TakeIdleKeeps(s, phase);
    case AcquireCompleted(phase) => TakeCompletedKeeps(s, phase);
    case ReleaseToIdle(b) => ReleaseKeeps(s, b);
    case Prepare(b, buffer) => PrepareKeeps(s, b, buffer);
    case UserPosts =>
    case CreditPosts =>
    case CallBack(_) =>
    case FailureRecorded => FailureKeeps(s);
  }

  lemma {:induction false} RunKeeps(s: State, evs: seq<Event>)
    requires Inv(s) && IsRun(s, evs)
    ensures Inv(After(s, evs))
    decreases |evs|
  {
    if evs != [] {
      StepKeeps(s, evs[0]);
      RunKeeps(Next(s, evs[0]), evs[1..]);
    }
  }

  lemma NewQueueOk(direction: Direction, ignoreCredits: bool, putBack: bool, sizes: seq<Size>)
    ensures Inv(Init(NewQueue(direction, ignoreCredits, putBack, sizes)))
  {
    var s := Init(NewQueue(direction, ignoreCredits, putBack, sizes));
    assert Submitted(s.q, s.q.queued + s.q.waiting) == [];
    forall b: BufferId
      ensures Places(s.q, b) == if b < |sizes| then 1 else 0
    {
      OccursPool(|sizes|, b);
    }
  }

  // ---------------------------------------------------------------- buffers on their way

  lemma DetachedUntilAbort(s: State)
    requires Inv(s) && !s.q.aborted
    ensures Detached(s)
  {
    forall b: BufferId | b in s.posted || b in Unposted(s)
      ensures b !in s.q.user && b !in s.q.completed
    {
      assert b in s.q.queued;
      OnePlace(s.q, b);
    }
  }

  lemma {:induction false} UnlinkSubset(s: seq<BufferId>, c: BufferId, b: BufferId)
    requires b in Unlink(s, c)
    ensures b in s
  {
    if s != [] && s[0] != c && s[0] != b {
      UnlinkSubset(s[1..], c, b);
    }
  }

  /** After an abort nothing new is posted, and the user gets only what was completed. */
  ghost predicate Shrinks(s: State, s': State) {
    && (s.userPost.None? ==> s'.userPost.None?) && (s.creditPost.None? ==> s'.creditPost.None?)
    && (forall b: BufferId :: b in s'.posted || b in Unposted(s') ==> b in s.posted || b in Unposted(s))
    && (forall b: BufferId :: b in s'.q.completed ==> b in s.q.completed)
    && (forall b: BufferId :: b in s'.q.user ==> b in s.q.user || b in s.q.completed)
  }

  lemma PostingShrinks(s: State, ev: Event)
    requires Enabled(s, ev) && (ev.UserPosts? || ev.CreditPosts? || (ev.Complete? && s.q.aborted))
    ensures Shrinks(s, Next(s, ev))
  {
  }

  lemma UserShrinks(s: State, ev: Event)
    requires Enabled(s, ev) && s.q.status != SUCCESS
    requires ev.AcquireIdle? || ev.AcquireCompleted? || ev.ReleaseToIdle? || ev.Prepare? || ev.Submit?
    ensures Shrinks(s, Next(s, ev))
  {
    if ev.ReleaseToIdle? && ev.b in s.q.user {
      forall b: BufferId | b in Unlink(s.q.user, ev.b)
        ensures b in s.q.user
      {
        UnlinkSubset(s.q.user, ev.b, b);
      }
    }
  }

  lemma DetachedAfterAbort(s: State, ev: Event)
    requires QueueOk(s.q) && Detached(s) && Enabled(s, ev) && (s.q.aborted || ev.DoAbort?)
    ensures Detached(Next(s, ev))
  {
    match ev
    case UserPosts => PostingShrinks(s, ev);
    case CreditPosts => PostingShrinks(s, ev);
    case Complete(_, _) => PostingShrinks(s, ev);
    case Credit(_) =>
    case FailureRecorded =>
    case CallBack(_) =>
    case DoAbort(_) =>
    case _ => UserShrinks(s, ev);
  }

  /** A queue keeps its direction and its policies. */
  ghost predicate SameKind(q: Queue, q': Queue) {
    q'.direction == q.direction && q'.ignoreCredits == q.ignoreCredits && q'.putBack == q.putBack
  }

  lemma StepSameKind(s: State, ev: Event)
    requires Enabled(s, ev)
    ensures SameKind(s.q, Next(s, ev).q)
  {
    match ev
    case Submit(b) => assert SameKind(s.q, QueueBuffer(s.q, b).q);
    case Credit(credit) => assert SameKind(s.q, AddCredit(s.q, credit).q);
    case DoAbort(code) => assert SameKind(s.q, Abort(s.q, code).q);
    case Complete(bytes, code) => CompleteSameKind(s, bytes, code);
    case _ =>
  }

  lemma CompleteSameKind(s: State, bytes: Size, code: int)
    requires Enabled(s, Complete(bytes, code))
    ensures SameKind(s.q, Next(s, Complete(bytes, code)).q)
  {
  }

  lemma OnlyAbortAborts(s: State, ev: Event)
    requires Enabled(s, ev)
    ensures Next(s, ev).q.aborted == (s.q.aborted || ev.DoAbort?)
  {
    match ev
    case Submit(b) => assert QueueBuffer(s.q, b).q.aborted == s.q.aborted;
    case Credit(credit) => assert AddCredit(s.q, credit).q.aborted == s.q.aborted;
    case _ =>
  }

  lemma OnlySubmitSubmits(s: State, ev: Event)
    requires Enabled(s, ev) && !ev.Submit?
    ensures Next(s, ev).submitted == s.submitted && (Next(s, ev).userPost.Some? ==> s.userPost.Some?)
  {
  }

  lemma DetachedStep(s: State, ev: Event)
    requires Inv(s) && Detached(s) && Enabled(s, ev)
    ensures Detached(Next(s, ev))
  {
    if s.q.aborted || ev.DoAbort? {
      DetachedAfterAbort(s, ev);
    } else {
      var s' := Next(s, ev);
      OnlyAbortAborts(s, ev);
      StepKeeps(s, ev);
      DetachedUntilAbort(s');
    }
  }
}
