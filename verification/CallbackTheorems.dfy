/**
 Completion callbacks: collected under the lock, called after it. Each is
 called exactly once; the module says exactly when the order of the calls is the
 order of service, and what queueing a buffer a second time does.
 */
module CallbackTheorems {
  import opened QueueModel
  import opened QueueRuns
  import opened QueueTheorems

  // ---------------------------------------------------------------- collecting and calling

  /** What is in hand is the end of what was collected by each side, and the rest has been called once. */
  ghost predicate CallsOk(c: Calling, n: nat, aborted: bool) {
    && |c.hand| <= c.byCompletion <= n && |c.abortHand| <= n - c.byCompletion
    && c.hand == From(c.byCompletion - |c.hand|, |c.hand|)
    && c.abortHand == From(n - |c.abortHand|, |c.abortHand|)
    && (!aborted ==> c.byCompletion == n)
    && forall i: nat :: Occurrences(c.called, i) == if Done(c, n, i) then 1 else 0
  }

  ghost predicate Done(c: Calling, n: nat, i: nat) {
    i < c.byCompletion - |c.hand| || c.byCompletion <= i < n - |c.abortHand|
  }

  lemma FromConcat(a: nat, k: nat, m: nat)
    ensures From(a, k) + From(a + k, m) == From(a, k + m)
  {
  }

  lemma {:induction false} FromOccurs(a: nat, k: nat, i: nat)
    ensures Occurrences(From(a, k), i) == if a <= i < a + k then 1 else 0
  {
    if k > 0 {
      FromOccurs(a, k - 1, i);
      assert From(a, k) == From(a, k - 1) + [a + k - 1];
      OccursSnoc(From(a, k - 1), a + k - 1, i);
    }
  }

  lemma CompletionCollects(c: Calling, n: nat, k: nat)
    requires CallsOk(c, n, false)
    ensures CallsOk(c.(byCompletion := c.byCompletion + k, hand := c.hand + From(n, k)), n + k, false)
  {
    FromConcat(c.byCompletion - |c.hand|, |c.hand|, k);
  }

  lemma AbortCollects(c: Calling, n: nat, k: nat)
    requires CallsOk(c, n, false)
    ensures CallsOk(c.(abortHand := c.abortHand + From(n, k)), n + k, true)
  {
    assert c.abortHand == [] && [] + From(n, k) == From(n, k);
  }

  ghost function Called(c: Calling, aborting: bool): Calling
    requires if aborting then c.abortHand != [] else c.hand != []
  {
    if aborting then c.(called := c.called + [c.abortHand[0]], abortHand := c.abortHand[1..])
    else c.(called := c.called + [c.hand[0]], hand := c.hand[1..])
  }

  lemma CallKeeps(c: Calling, n: nat, aborted: bool, aborting: bool)
    requires CallsOk(c, n, aborted) && if aborting then c.abortHand != [] else c.hand != []
    ensures CallsOk(Called(c, aborting), n, aborted)
  {
    var x := if aborting then c.abortHand[0] else c.hand[0];
    forall i: nat
      ensures Occurrences(c.called + [x], i) == Occurrences(c.called, i) + if x == i then 1 else 0
    {
      OccursSnoc(c.called, x, i);
    }
  }

  ghost predicate StateCallsOk(s: State) {
    CallsOk(s.calls, |s.collected|, s.q.aborted)
  }

  lemma CompleteCalls(s: State, bytes: Size, code: int)
    requires StateCallsOk(s) && Enabled(s, Complete(bytes, code))
    ensures StateCallsOk(Next(s, Complete(bytes, code)))
  {
    var n := |s.collected|;
    assert s.calls.hand + From(n, 0) == s.calls.hand && s.collected + [] == s.collected;
    if !s.q.aborted {
      CompletionCollects(s.calls, n, |Fire(s.q, s.posted[0], code, bytes)|);
    }
  }

  lemma AbortCalls(s: State, code: int)
    requires StateCallsOk(s) && Enabled(s, DoAbort(code))
    ensures StateCallsOk(Next(s, DoAbort(code)))
  {
    var n := |s.collected|;
    assert s.calls.abortHand + From(n, 0) == s.calls.abortHand && s.collected + [] == s.collected;
    if !s.q.aborted {
      AbortCollects(s.calls, n, |Abort(s.q, code).fired|);
    }
  }

  lemma OthersCollectNothing(s: State, ev: Event)
    requires Enabled(s, ev) && !ev.Complete? && !ev.DoAbort? && !ev.CallBack?
    ensures Next(s, ev).calls == s.calls && Next(s, ev).collected == s.collected
  {
  }

  lemma CallsStep(s: State, ev: Event)
    requires StateCallsOk(s) && Enabled(s, ev)
    ensures StateCallsOk(Next(s, ev))
  {
    if ev.Complete? {
      CompleteCalls(s, ev.bytes, ev.code);
    } else if ev.DoAbort? {
      AbortCalls(s, ev.code);
    } else if ev.CallBack? {
      CallKeeps(s.calls, |s.collected|, s.q.aborted, ev.aborting);
    } else {
      OthersCollectNothing(s, ev);
      OnlyAbortAborts(s, ev);
    }
  }

  lemma {:induction false} CallsRun(s: State, evs: seq<Event>)
    requires StateCallsOk(s) && IsRun(s, evs)
    ensures StateCallsOk(After(s, evs))
    decreases |evs|
  {
    if evs != [] {
      CallsStep(s, evs[0]);
      CallsRun(Next(s, evs[0]), evs[1..]);
    }
  }

  // ---------------------------------------------------------------- the order of the calls

  /** The calls have been made in the order of collection, which is the order of service. */
  ghost predicate InServiceOrder(c: Calling) {
    c.called == From(0, |c.called|)
  }

  /** The aborting thread calls while the completion thread has a callback in hand. */
  ghost predicate Inverts(s: State, ev: Event) {
    ev.CallBack? && ev.aborting && s.calls.hand != []
  }

  ghost predicate Inverted(s: State, evs: seq<Event>)
    requires IsRun(s, evs)
    decreases |evs|
  {
    evs != [] && (Inverts(s, evs[0]) || Inverted(Next(s, evs[0]), evs[1..]))
  }

  /** If the calls are in order, the next in order is the first in hand of the completion thread, or, if it has none,
      of the aborting thread. */
  lemma NextInOrder(c: Calling, n: nat, aborted: bool)
    requires CallsOk(c, n, aborted) && InServiceOrder(c)
    ensures |c.called| == if c.hand != [] then c.byCompletion - |c.hand| else n - |c.abortHand|
  {
    var m, next := |c.called|, if c.hand != [] then c.byCompletion - |c.hand| else n - |c.abortHand|;
    FromOccurs(0, m, next);
    FromOccurs(0, m, m);
    if next > 0 {
      FromOccurs(0, m, next - 1);
    }
  }

  lemma OrderStep(c: Calling, n: nat, aborted: bool, aborting: bool)
    requires CallsOk(c, n, aborted) && if aborting then c.abortHand != [] else c.hand != []
    ensures InServiceOrder(Called(c, aborting)) <==> InServiceOrder(c) && !(aborting && c.hand != [])
  {
    var c', m := Called(c, aborting), |c.called|;
    assert c'.called[..m] == c.called && From(0, m + 1)[..m] == From(0, m) && From(0, m + 1)[m] == m;
    if InServiceOrder(c) {
      NextInOrder(c, n, aborted);
      assert From(0, m + 1) == From(0, m) + [m];
    }
  }

  lemma {:induction false} OrderRun(s: State, evs: seq<Event>)
    requires StateCallsOk(s) && IsRun(s, evs)
    ensures InServiceOrder(After(s, evs).calls) <==> InServiceOrder(s.calls) && !Inverted(s, evs)
    decreases |evs|
  {
    if evs != [] {
      CallsStep(s, evs[0]);
      if evs[0].CallBack? {
        OrderStep(s.calls, |s.collected|, s.q.aborted, evs[0].aborting);
      } else {
        CallsUnmade(s, evs[0]);
      }
      OrderRun(Next(s, evs[0]), evs[1..]);
    }
  }

  lemma CallsUnmade(s: State, ev: Event)
    requires Enabled(s, ev) && !ev.CallBack?
    ensures Next(s, ev).calls.called == s.calls.called
  {
  }

  // ---------------------------------------------------------------- exactly once

  ghost function Picked<T>(s: seq<T>, numbers: seq<nat>): seq<T>
    requires forall i :: 0 <= i < |numbers| ==> numbers[i] < |s|
  {
    seq(|numbers|, i requires 0 <= i < |numbers| => s[numbers[i]])
  }

  lemma OnlyNumbers(numbers: seq<nat>, n: nat)
    requires forall i: nat :: Occurrences(numbers, i) == if i < n then 1 else 0
    ensures forall i :: 0 <= i < |numbers| ==> numbers[i] < n
  {
    forall i | 0 <= i < |numbers|
      ensures numbers[i] < n
    {
      OccursIn(numbers, numbers[i]);
    }
  }

  /** Picking every element once gives all of them. */
  lemma {:induction false} PickedAll<T>(s: seq<T>, numbers: seq<nat>)
    requires forall i: nat :: Occurrences(numbers, i) == if i < |s| then 1 else 0
    requires forall i :: 0 <= i < |numbers| ==> numbers[i] < |s|
    ensures multiset(Picked(s, numbers)) == multiset(s)
    decreases |s|
  {
    if s == [] {
      assert numbers == [];
    } else {
      var last := |s| - 1;
      OccursIn(numbers, last);
      var k :| 0 <= k < |numbers| && numbers[k] == last;
      var a, b := numbers[..k], numbers[k + 1..];
      assert numbers == a + [last] + b;
      WithoutLast(a, b, last);
      OnlyNumbers(a + b, last);
      PickedAll(s[..last], a + b);
      assert s == s[..last] + [s[last]];
      PickLast(s[..last], s[last], a, b);
    }
  }

  lemma PickLast<T>(s: seq<T>, x: T, a: seq<nat>, b: seq<nat>)
    requires forall i :: 0 <= i < |a + b| ==> (a + b)[i] < |s|
    requires forall i :: 0 <= i < |a + [|s|] + b| ==> (a + [|s|] + b)[i] < |s + [x]|
    ensures multiset(Picked(s + [x], a + [|s|] + b)) == multiset(Picked(s, a + b)) + multiset{x}
  {
    var p := Picked(s, a + b);
    assert Picked(s + [x], a + [|s|] + b) == p[..|a|] + [x] + p[|a|..];
    assert p == p[..|a|] + p[|a|..];
  }

  lemma WithoutLast(a: seq<nat>, b: seq<nat>, last: nat)
    requires forall i: nat :: Occurrences(a + [last] + b, i) == if i <= last then 1 else 0
    ensures forall i: nat :: Occurrences(a + b, i) == if i < last then 1 else 0
  {
    forall i: nat
      ensures Occurrences(a + b, i) == if i < last then 1 else 0
    {
      assert Occurrences(a + [last] + b, i) == if i <= last then 1 else 0;
      OccursConcat(a + [last], b, i);
      OccursSnoc(a, last, i);
      OccursConcat(a, b, i);
    }
  }

  ghost function Numbers(c: Calling): seq<nat> {
    c.called + c.hand + c.abortHand
  }

  lemma EachNumberOnce(c: Calling, n: nat, aborted: bool)
    requires CallsOk(c, n, aborted)
    ensures forall i: nat :: Occurrences(Numbers(c), i) == if i < n then 1 else 0
    ensures forall i :: 0 <= i < |Numbers(c)| ==> Numbers(c)[i] < n
  {
    forall i: nat
      ensures Occurrences(Numbers(c), i) == if i < n then 1 else 0
    {
      OccursConcat(c.called + c.hand, c.abortHand, i);
      OccursConcat(c.called, c.hand, i);
      FromOccurs(c.byCompletion - |c.hand|, |c.hand|, i);
      FromOccurs(n - |c.abortHand|, |c.abortHand|, i);
    }
    OnlyNumbers(Numbers(c), n);
  }

  lemma ReorderedCalls(subs: seq<Submission>, jump: Option<Jump>)
    ensures multiset(Calls(Reordered(subs, jump))) == multiset(Calls(subs))
  {
    if jump.Some? && jump.value.over <= jump.value.at < |subs| {
      var j := jump.value;
      var a, m, x, z := subs[..j.at - j.over], subs[j.at - j.over..j.at], [subs[j.at]], subs[j.at + 1..];
      assert subs == a + m + x + z;
      SwapCalls(a, m, x, z);
    }
  }

  lemma SwapCalls(a: seq<Submission>, m: seq<Submission>, x: seq<Submission>, z: seq<Submission>)
    ensures multiset(Calls(a + x + m + z)) == multiset(Calls(a + m + x + z))
  {
    CallsConcat(a + x + m, z);
    CallsConcat(a + x, m);
    CallsConcat(a, x);
    CallsConcat(a + m + x, z);
    CallsConcat(a + m, x);
    CallsConcat(a, m);
  }

  /** Callbacks of accepted submissions that are still held by queued and waiting buffers. */
  ghost function HeldCalls(s: State): seq<Callback> {
    Calls(Submitted(s.q, s.q.queued + s.q.waiting))
  }

  /** Every callback of an accepted submission is called exactly once, by completion or by abort: in every state each
      collected one has been called, or is in hand, once; and collected and held ones together are those of the accepted
      submissions, in the order of service. The calls made are in the order of service if and only if no callback of the
      abort was called while one of a completion was in hand; if in addition nothing overtook, they are in the order of
      submission. */
  lemma CallbacksFireOnce(c: Setup, evs: seq<Event>)
    requires Reaches(c, evs)
    ensures var s := After(Start(c), evs);
            && (forall i: nat :: Occurrences(Numbers(s.calls), i) == if i < |s.collected| then 1 else 0)
            && Callbacks(s.collected) + HeldCalls(s) == Calls(Reordered(s.submitted, s.jump))
            && multiset(Callbacks(s.collected) + HeldCalls(s)) == multiset(Calls(s.submitted))
            && (s.calls.called == From(0, |s.calls.called|) <==> !Inverted(Start(c), evs))
            && (!Overtaken(Start(c), evs) ==> Callbacks(s.collected) + HeldCalls(s) == Calls(s.submitted))
  {
    var s0, s := Start(c), After(Start(c), evs);
    assert Recorded(s) by { ReachableOk(c, evs); }
    CollectedInState(s);
    assert s.jump.Some? <==> Overtaken(s0, evs) by {
      NewQueueOk(c.direction, c.ignoreCredits, c.putBack, c.sizes);
      RunJumps(s0, evs);
    }
    CallsInRun(s0, evs);
  }

  lemma CollectedInState(s: State)
    requires Recorded(s)
    ensures Callbacks(s.collected) + HeldCalls(s) == Calls(Reordered(s.submitted, s.jump))
    ensures multiset(Callbacks(s.collected) + HeldCalls(s)) == multiset(Calls(s.submitted))
  {
    CallsConcat(s.finished, Submitted(s.q, s.q.queued + s.q.waiting));
    ReorderedCalls(s.submitted, s.jump);
  }

  lemma CallsInRun(s: State, evs: seq<Event>)
    requires IsRun(s, evs) && s.collected == [] && s.calls == Calling(0, [], [], []) && !s.q.aborted
    ensures var s' := After(s, evs);
            && (forall i: nat :: Occurrences(Numbers(s'.calls), i) == if i < |s'.collected| then 1 else 0)
            && (forall i :: 0 <= i < |Numbers(s'.calls)| ==> Numbers(s'.calls)[i] < |s'.collected|)
            && (s'.calls.called == From(0, |s'.calls.called|) <==> !Inverted(s, evs))
  {
    CallsRun(s, evs);
    OrderRun(s, evs);
    EachNumberOnce(After(s, evs).calls, |After(s, evs).collected|, After(s, evs).q.aborted);
  }

  /** When nothing is in hand and no buffer is pending, the calls made are those of the accepted submissions. */
  lemma AllCalled(c: Setup, evs: seq<Event>)
    requires Reaches(c, evs)
    requires var s := After(Start(c), evs);
             s.calls.hand == [] && s.calls.abortHand == [] && s.q.queued == [] && s.q.waiting == []
    ensures var s := After(Start(c), evs);
            && (forall i :: 0 <= i < |s.calls.called| ==> s.calls.called[i] < |s.collected|)
            && multiset(Callbacks(Picked(s.collected, s.calls.called))) == multiset(Calls(s.submitted))
  {
    var s := After(Start(c), evs);
    assert Recorded(s) by { ReachableOk(c, evs); }
    CollectedInState(s);
    assert HeldCalls(s) == [] && Callbacks(s.collected) + [] == Callbacks(s.collected);
    CallsInRun(Start(c), evs);
    assert Numbers(s.calls) == s.calls.called;
    PickedCallbacks(s.collected, s.calls.called);
  }

  lemma PickedCallbacks(collected: seq<Fired>, numbers: seq<nat>)
    requires forall i: nat :: Occurrences(numbers, i) == if i < |collected| then 1 else 0
    requires forall i :: 0 <= i < |numbers| ==> numbers[i] < |collected|
    ensures multiset(Callbacks(Picked(collected, numbers))) == multiset(Callbacks(collected))
  {
    assert Callbacks(Picked(collected, numbers)) == Picked(Callbacks(collected), numbers);
    PickedAll(Callbacks(collected), numbers);
  }

  // ---------------------------------------------------------------- queueing a buffer a second time

  /** The callbacks that queued and waiting buffers hold. */
  ghost function HeldBack(q: Queue): seq<Option<Callback>> {
    var line := q.queued + q.waiting;
    seq(|line|, i requires 0 <= i < |line| => At(q, line[i]).callback)
  }

  ghost function Unsent(s: State): seq<BufferId> {
    Unposted(s) + s.q.waiting
  }

  /** The lengths that are still to be posted; those of posted buffers have been read. */
  ghost function UnsentLengths(s: State): seq<Size> {
    seq(|Unsent(s)|, i requires 0 <= i < |Unsent(s)| => At(s.q, Unsent(s)[i]).used)
  }

  /** What the call does to a pending buffer: it is refused, but size and callback may be set. */
  lemma SecondQueueing(s: State, b: BufferId, used: Size, callback: Option<Callback>)
    requires Inv(s) && b in s.q.queued + s.q.waiting
    ensures var o := QueueRegion(s.q, b, used, callback);
            && o.code != SUCCESS && o.post.None? && b < |s.q.buffers|
            && o.q == if used > At(s.q, b).size then s.q
                      else Set(s.q, b, At(s.q, b).(used := used, callback := callback))
  {
    OnePlace(s.q, b);
  }

  lemma CallbackChanges(q: Queue, b: BufferId, buffer: Buffer)
    requires b < |q.buffers| && b in q.queued + q.waiting
    ensures HeldBack(Set(q, b, buffer)) == HeldBack(q) <==> buffer.callback == At(q, b).callback
  {
    var line := q.queued + q.waiting;
    var i :| 0 <= i < |line| && line[i] == b;
    assert HeldBack(Set(q, b, buffer))[i] == buffer.callback && HeldBack(q)[i] == At(q, b).callback;
  }

  lemma LengthChanges(s: State, b: BufferId, buffer: Buffer)
    requires b < |s.q.buffers|
    ensures UnsentLengths(s.(q := Set(s.q, b, buffer))) == UnsentLengths(s) <==>
            b !in Unsent(s) || buffer.used == At(s.q, b).used
  {
    var s' := s.(q := Set(s.q, b, buffer));
    assert Unsent(s') == Unsent(s);
    if b in Unsent(s) {
      var i :| 0 <= i < |Unsent(s)| && Unsent(s)[i] == b;
      assert UnsentLengths(s')[i] == buffer.used && UnsentLengths(s)[i] == At(s.q, b).used;
    }
  }

  /** Until an abort, a pending buffer is either posted or still to be sent. */
  lemma PostedOrUnsent(s: State, b: BufferId)
    requires Inv(s) && b in s.q.queued + s.q.waiting
    ensures b in s.posted <==> b !in Unsent(s)
  {
    assert s.q.queued == s.posted + Unposted(s);
    OnePlace(s.q, b);
    OccursConcat(s.posted, Unposted(s), b);
    OccursIn(s.posted, b);
    OccursIn(Unposted(s), b);
    assert Places(s.q, b) <= 1;
  }

  /** Queueing a pending buffer a second time is refused. The callbacks still held stay as they are if and only if the
      new size was refused or the callback is the same; the lengths still to be posted if and only if the size was
      refused, is the same, or the buffer has been posted. */
  lemma SecondQueueingChanges(s: State, b: BufferId, used: Size, callback: Option<Callback>)
    requires Inv(s) && b in s.q.queued + s.q.waiting
    ensures var o := QueueRegion(s.q, b, used, callback);
            && o.code != SUCCESS
            && (HeldBack(o.q) == HeldBack(s.q) <==> used > At(s.q, b).size || callback == At(s.q, b).callback)
            && (UnsentLengths(s.(q := o.q)) == UnsentLengths(s) <==>
                  used > At(s.q, b).size || used == At(s.q, b).used || b in s.posted)
  {
    SecondQueueing(s, b, used, callback);
    var buffer := At(s.q, b).(used := used, callback := callback);
    CallbackChanges(s.q, b, buffer);
    LengthChanges(s, b, buffer);
    PostedOrUnsent(s, b);
  }

  /** The size of a posted buffer no longer matters: its completion overwrites it. */
  lemma PostedSizeIsForgotten(q: Queue, used: Size, bytes: Size, code: int)
    requires !q.aborted && q.queued != [] && q.queued[0] < |q.buffers|
    ensures var b := q.queued[0];
            HandleCompletion(Set(q, b, At(q, b).(used := used)), b, bytes, code) == HandleCompletion(q, b, bytes, code)
  {
    var b := q.queued[0];
    var buffer := At(q, b).(used := bytes, callback := None);
    assert Set(Set(q, b, At(q, b).(used := used)), b, buffer).buffers == Set(q, b, buffer).buffers;
  }

  /** A buffer in the user's hands is queued as the runs say: prepared, then submitted. */
  lemma FirstQueueing(s: State, b: BufferId, used: Size, callback: Option<Callback>)
    requires b in s.q.user && s.userPost.None? && used <= At(s.q, b).size
    ensures var s1 := Next(s, Prepare(b, At(s.q, b).(used := used, callback := callback)));
            Next(s1, Submit(b)).q == QueueRegion(s.q, b, used, callback).q
  {
  }
}
