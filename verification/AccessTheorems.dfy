/**
 What callers of the access manager may rely on after any interleaving.
 */
module AccessTheorems {
  import opened AccessModel
  import opened AccessRuns

  // ---------------------------------------------------------------- mutual exclusion

  lemma {:induction false} ExclusiveEntryCounts(es: seq<Entry>, i: nat)
    requires i < |es| && Exclusive in es[i].history
    ensures Total(es, Exclusive) > 0
  {
    if i > 0 {
      ExclusiveEntryCounts(es[1..], i - 1);
    }
  }

  /** After every run, a thread with an exclusive access among its accesses is the only active thread. */
  lemma MutualExclusion(evs: seq<Event>)
    requires IsRun(Init(), evs)
    ensures var active := After(Init(), evs).m.active;
            forall i :: 0 <= i < |active| && Exclusive in active[i].history ==> |active| == 1
  {
    InitOk();
    RunKeeps(Init(), evs);
    var active := After(Init(), evs).m.active;
    forall i | 0 <= i < |active| && Exclusive in active[i].history
      ensures |active| == 1
    {
      ExclusiveEntryCounts(active, i);
    }
  }

  /** The queries answer for the caller although they read totals over all active threads. */
  lemma QueriesAnswerForCaller(evs: seq<Event>, t: Tid)
    requires IsRun(Init(), evs)
    ensures var m := After(Init(), evs).m;
            && (HasExclusive(m, t) <==> t in ByTid(m.active) && Exclusive in HistoryOf(m, t))
            && (HasShared(m, t) <==> t in ByTid(m.active) && Exclusive !in HistoryOf(m, t))
  {
    InitOk();
    RunKeeps(Init(), evs);
    QueriesInState(After(Init(), evs), t);
  }

  lemma QueriesInState(s: State, t: Tid)
    requires Inv(s)
    ensures HasExclusive(s.m, t) <==> t in ByTid(s.m.active) && Exclusive in HistoryOf(s.m, t)
    ensures HasShared(s.m, t) <==> t in ByTid(s.m.active) && Exclusive !in HistoryOf(s.m, t)
  {
    if t in ByTid(s.m.active) {
      KeysFacts(s.m.active);
      var e := ByTid(s.m.active)[t];
      CountFacts(e);
      assert Exclusive in e.history <==> e.Count(Exclusive) > 0;
      assert e.Count(Exclusive) <= Total(s.m.active, Exclusive);
      assert e.Count(Shared) <= Total(s.m.active, Shared);
      if Total(s.m.active, Exclusive) > 0 {
        assert s.m.active == [e] && s.m.active[1..] == [];
        assert Total(s.m.active, Exclusive) == e.Count(Exclusive);
      }
    }
  }

  /** The documentation says that `HasSharedAccess` tells whether the caller has shared access. For an active caller it
      does so exactly if the caller does not hold both kinds of access. */
  lemma SharedAnswerAsDocumented(evs: seq<Event>, t: Tid)
    requires IsRun(Init(), evs) && t in ByTid(After(Init(), evs).m.active)
    ensures var m := After(Init(), evs).m; var h := HistoryOf(m, t);
            (HasShared(m, t) <==> Shared in h) <==> !(Shared in h && Exclusive in h)
  {
    InitOk();
    RunKeeps(Init(), evs);
    QueriesAnswerForCaller(evs, t);
    var h := HistoryOf(After(Init(), evs).m, t);
    assert h[0] == Shared || h[0] == Exclusive;
  }

  /** A thread that takes shared and then exclusive access has shared access, and is told that it has not. */
  lemma SharedAnswerFails()
    ensures var evs := [Event(0, DoAcquire(Shared)), Event(0, DoAcquire(Exclusive))];
            && IsRun(Init(), evs)
            && var m := After(Init(), evs).m; Shared in HistoryOf(m, 0) && !HasShared(m, 0)
  {
    var e1, e2 := Event(0, DoAcquire(Shared)), Event(0, DoAcquire(Exclusive));
    var s1 := Next(Init(), e1);
    assert s1.m.active == [Entry(0, [Shared], false)] && s1.m.pending == [] && s1.m.suspended == [];
    PromoteAlone(s1);
    assert [e1, e2][1..] == [e2] && [e2][1..] == [];
  }

  /** The only active thread adds an exclusive access to its shared one. */
  lemma PromoteAlone(s: State)
    requires s.m.active == [Entry(0, [Shared], false)] && s.m.pending == [] && s.m.suspended == [] && Free(s, 0)
    ensures Enabled(s, Event(0, DoAcquire(Exclusive)))
    ensures var m := Next(s, Event(0, DoAcquire(Exclusive))).m; Shared in HistoryOf(m, 0) && !HasShared(m, 0)
  {
    var e, e' := s.m.active[0], Entry(0, [Shared, Exclusive], false);
    assert s.m.active[1..] == [] && ByTid(s.m.active)[0] == e && Without(s.m.active, 0) == [];
    assert e.Count(Exclusive) == 0 && e.(history := e.history + [Exclusive]) == e';
    assert SatisfyOwn(s.m.(active := []), e').m.active == [e'];
    assert [e'][1..] == [] && ByTid([e'])[0] == e' && e'.Count(Exclusive) == 1;
  }

  ghost function Listings(es: seq<Entry>, t: Tid): nat {
    if es == [] then 0 else (if es[0].tid == t then 1 else 0) + Listings(es[1..], t)
  }

  lemma {:induction false} ListedOnce(es: seq<Entry>, t: Tid)
    requires Distinct(es)
    ensures Listings(es, t) == if t in ByTid(es) then 1 else 0
  {
    if es != [] {
      ListedOnce(es[1..], t);
    }
  }

  /** No thread has two requests, in one list or in two. */
  lemma EachThreadOnce(evs: seq<Event>, t: Tid)
    requires IsRun(Init(), evs)
    ensures var m := After(Init(), evs).m;
            Listings(m.active, t) + Listings(m.pending, t) + Listings(m.suspended, t) <= 1
  {
    InitOk();
    RunKeeps(Init(), evs);
    var m := After(Init(), evs).m;
    ListedOnce(m.active, t);
    ListedOnce(m.pending, t);
    ListedOnce(m.suspended, t);
  }

  // ---------------------------------------------------------------- events

  /** Event and thread go together: a set event belongs to a thread that still waits and has been let in; a thread
      that has left its wait is active with its event reset; no unused request has its event set. */
  lemma SignalMatching(evs: seq<Event>, t: Tid)
    requires IsRun(Init(), evs)
    ensures var s := After(Init(), evs);
            && (EventSet(s.m, t) ==> t in s.blocked && t in ByTid(s.m.active))
            && (t in s.blocked ==> t in ByTid(s.m.pending) || EventSet(s.m, t))
            && (t in s.resuming ==> t in ByTid(s.m.active) && !EventSet(s.m, t))
            && true !in s.m.spare
  {
    InitOk();
    RunKeeps(Init(), evs);
  }

  /** Leaving the wait consumes the event: the same signal cannot let a thread go twice. */
  lemma SignalConsumedOnce(s: State, t: Tid)
    requires Inv(s) && Enabled(s, Event(t, DoWake))
    ensures var s' := Next(s, Event(t, DoWake));
            !EventSet(s'.m, t) && !Enabled(s', Event(t, DoWake)) && Enabled(s', Event(t, DoContinue))
  {
    WakeKeeps(s, t);
  }

  // ---------------------------------------------------------------- first come, first served

  /** The line is served in the order of arrival. */
  lemma FirstComeFirstServed(evs: seq<Event>)
    requires IsRun(Init(), evs)
    ensures var s := After(Init(), evs); s.arrived == s.granted + Tids(s.m.pending)
  {
    InitOk();
    RunKeeps(Init(), evs);
  }

  lemma LogsGrow(s: State, ev: Event) returns (came: seq<Tid>, served: seq<Tid>)
    requires Enabled(s, ev)
    ensures Next(s, ev).arrived == s.arrived + came && Next(s, ev).granted == s.granted + served
    ensures |served| <= 1
  {
    var s' := Next(s, ev);
    came, served := s'.arrived[|s.arrived|..], s'.granted[|s.granted|..];
  }

  lemma LineShifts(granted: seq<Tid>, line: seq<Tid>, came: seq<Tid>, served: seq<Tid>, line': seq<Tid>)
    requires (granted + line) + came == (granted + served) + line'
    ensures line + came == served + line'
  {
    var all := (granted + line) + came;
    assert all[|granted|..] == line + came;
    assert ((granted + served) + line')[|granted|..] == served + line';
  }

  /** A waiting thread never moves back in the line: it keeps its place, moves up by one, or was first and is let in. */
  lemma WaiterNeverMovesBack(s: State, ev: Event, i: nat)
    requires Inv(s) && Enabled(s, ev) && i < |s.m.pending|
    ensures var line := Tids(s.m.pending); var line' := Tids(Next(s, ev).m.pending);
            || (i < |line'| && line'[i] == line[i])
            || (0 < i <= |line'| && line'[i - 1] == line[i])
            || (i == 0 && Next(s, ev).granted == s.granted + [line[0]])
  {
    var s' := Next(s, ev);
    assert s'.arrived == s'.granted + Tids(s'.m.pending) by { StepKeeps(s, ev); }
    var came, served := LogsGrow(s, ev);
    LineShifts(s.granted, Tids(s.m.pending), came, served, Tids(s'.m.pending));
    PlaceInLine(Tids(s.m.pending), came, served, Tids(s'.m.pending), i);
  }

  /** If at most one is served from the front and others join at the end, nobody in between moves back. */
  lemma PlaceInLine(line: seq<Tid>, came: seq<Tid>, served: seq<Tid>, line': seq<Tid>, i: nat)
    requires line + came == served + line' && |served| <= 1 && i < |line|
    ensures || (i < |line'| && line'[i] == line[i])
            || (0 < i <= |line'| && line'[i - 1] == line[i])
            || (i == 0 && served == [line[0]])
  {
    assert (line + came)[i] == (served + line')[i];
  }

  /** The thread asks for more than it holds: a first access, a promotion, a resumption, or its turn once more. */
  ghost predicate Asks(m: Manager, t: Tid, op: Op) {
    match op
    case DoAcquire(a) => t !in ByTid(m.active) || (a == Exclusive && ByTid(m.active)[t].Count(Exclusive) == 0)
    case DoResume => t in ByTid(m.suspended)
    case DoReacquireAtEnd => true
    case _ => false
  }

  /** A thread that asks is let in at once only if nobody waits. */
  lemma NoOvertaking(s: State, t: Tid, op: Op)
    requires Inv(s) && Enabled(s, Event(t, op)) && Asks(s.m, t, op)
    requires t !in Next(s, Event(t, op)).blocked
    ensures s.m.pending == []
  {
    TotalsDetectEmpty(s.m.pending);
  }

  // ---------------------------------------------------------------- nobody waits in vain

  ghost function SignalCount(es: seq<Entry>): nat {
    if es == [] then 0 else (if es[0].signalled then 1 else 0) + SignalCount(es[1..])
  }

  /** How much is left to do until the line is empty. */
  ghost function Weight(s: State): nat {
    TotalAccesses(s.m.active) + TotalAccesses(s.m.pending)
    + 3 * |s.m.pending| + 2 * SignalCount(s.m.active) + |s.resuming|
  }

  /** An event that finishes work without asking for more. */
  ghost predicate Finishing(ev: Event) {
    ev.op.DoWake? || ev.op.DoContinue? || ev.op.DoRelease?
  }

  lemma {:induction false} SignalCountWithout(es: seq<Entry>, t: Tid)
    requires Distinct(es) && t in ByTid(es)
    ensures SignalCount(Without(es, t)) + (if ByTid(es)[t].signalled then 1 else 0) == SignalCount(es)
  {
    if es[0].tid != t {
      SignalCountWithout(es[1..], t);
      assert ([es[0]] + Without(es[1..], t))[1..] == Without(es[1..], t);
    }
  }

  lemma {:induction false} SignalCountClear(es: seq<Entry>, t: Tid)
    requires Distinct(es) && t in ByTid(es) && ByTid(es)[t].signalled
    ensures SignalCount(ClearEvent(es, t)) + 1 == SignalCount(es)
  {
    if es[0].tid == t {
      assert ([es[0].(signalled := false)] + es[1..])[1..] == es[1..];
    } else {
      SignalCountClear(es[1..], t);
      assert ([es[0]] + ClearEvent(es[1..], t))[1..] == ClearEvent(es[1..], t);
    }
  }

  ghost function ListWeight(m: Manager): nat {
    TotalAccesses(m.active) + TotalAccesses(m.pending) + 3 * |m.pending| + 2 * SignalCount(m.active)
  }

  lemma ServingWeighsLess(m: Manager)
    ensures ListWeight(SatisfyHead(m).m) <= ListWeight(m)
  {
    if m.pending != [] && !Blocked(m.active, m.pending[0]) {
      var e := m.pending[0].(signalled := true);
      ConsFacts(e, m.active);
      assert ([e] + m.active)[1..] == m.active;
    }
  }

  lemma ReleasingWeighsLess(s: State, t: Tid)
    requires Inv(s) && Enabled(s, Event(t, DoRelease))
    ensures Weight(Next(s, Event(t, DoRelease))) < Weight(s)
  {
    var e := ByTid(s.m.active)[t];
    var rest := s.m.(active := Without(s.m.active, t));
    WithoutFacts(s.m.active, t);
    SignalCountWithout(s.m.active, t);
    CountFacts(e);
    if |e.history| > 1 {
      var e' := e.(history := e.history[..|e.history| - 1]);
      CountFacts(e');
      ConsFacts(e', rest.active);
      assert ([e'] + rest.active)[1..] == rest.active;
      ServingWeighsLess(rest.(active := [e'] + rest.active));
    } else {
      ServingWeighsLess(rest.(spare := [e.signalled] + rest.spare));
    }
  }

  lemma FinishingWeighsLess(s: State, ev: Event)
    requires Inv(s) && Enabled(s, ev) && Finishing(ev)
    ensures Weight(Next(s, ev)) < Weight(s)
  {
    var t := ev.tid;
    match ev.op
    case DoWake =>
      WakeKeeps(s, t);
      ClearEventFacts(s.m.active, t);
      ClearEventElsewhere(s.m.pending, t);
      SignalCountClear(s.m.active, t);
    case DoContinue =>
      ServingWeighsLess(s.m);
    case DoRelease => ReleasingWeighsLess(s, t);
    case _ =>
  }

  /** While anybody holds or awaits access, some thread can take a finishing step. */
  lemma SomeoneCanFinish(s: State) returns (ev: Event)
    requires Inv(s) && (s.m.active != [] || s.m.pending != [])
    ensures Enabled(s, ev) && Finishing(ev)
  {
    var t := s.m.active[0].tid;
    KeysFacts(s.m.active);
    ev := if t in s.blocked then Event(t, DoWake)
          else if t in s.resuming then Event(t, DoContinue)
          else Event(t, DoRelease);
  }

  /** No deadlock and no starvation: from every state of every run, letting threads finish in any order comes to an
      end within `Weight` steps, and it can only end once everybody who waited has been let in and all is released. */
  lemma {:induction false} FinishingRunsAreShort(s: State, evs: seq<Event>)
    requires Inv(s) && IsRun(s, evs)
    requires forall i :: 0 <= i < |evs| ==> Finishing(evs[i])
    ensures Inv(After(s, evs)) && |evs| + Weight(After(s, evs)) <= Weight(s)
    ensures (forall ev :: Finishing(ev) ==> !Enabled(After(s, evs), ev)) ==>
              var s' := After(s, evs); s'.m.active == [] && s'.m.pending == [] && s'.granted == s'.arrived
    decreases |evs|
  {
    if evs == [] {
      if s.m.active != [] || s.m.pending != [] {
        var ev := SomeoneCanFinish(s);
      }
    } else {
      StepKeeps(s, evs[0]);
      FinishingWeighsLess(s, evs[0]);
      FinishingRunsAreShort(Next(s, evs[0]), evs[1..]);
    }
  }

  // ---------------------------------------------------------------- histories

  /** The events of one thread in a run. */
  ghost function Own(evs: seq<Event>, t: Tid): seq<Op> {
    if evs == [] then []
    else (if evs[0].tid == t then [evs[0].op] else []) + Own(evs[1..], t)
  }

  ghost function ReplayAll(h: seq<Access>, ops: seq<Op>): seq<Access>
    decreases |ops|
  {
    if ops == [] then h else ReplayAll(Replay(h, ops[0]), ops[1..])
  }

  lemma StepHistory(s: State, ev: Event, t: Tid)
    requires Inv(s) && Enabled(s, ev)
    ensures Inv(Next(s, ev))
    ensures var h := HistoryOf(s.m, t);
            HistoryOf(Next(s, ev).m, t) == if ev.tid == t then Replay(h, ev.op) else h
  {
    StepKeeps(s, ev);
  }

  /** A thread's accesses are a stack that only its own calls change, whatever the other threads do. */
  lemma {:induction false} HistoryIsOwn(s: State, evs: seq<Event>, t: Tid)
    requires Inv(s) && IsRun(s, evs)
    ensures HistoryOf(After(s, evs).m, t) == ReplayAll(HistoryOf(s.m, t), Own(evs, t))
    decreases |evs|
  {
    if evs != [] {
      StepHistory(s, evs[0], t);
      HistoryIsOwn(Next(s, evs[0]), evs[1..], t);
      if evs[0].tid == t {
        assert Own(evs, t)[1..] == Own(evs[1..], t);
      } else {
        assert Own(evs, t) == Own(evs[1..], t);
      }
    }
  }

  /** What thread t's calls of Release returned, in order. */
  ghost function Returned(s: State, evs: seq<Event>, t: Tid): seq<Access>
    requires IsRun(s, evs)
    decreases |evs|
  {
    if evs == [] then []
    else
      var h := HistoryOf(s.m, t);
      (if evs[0].tid == t && evs[0].op.DoRelease? && h != [] then [h[|h| - 1]] else [])
      + Returned(Next(s, evs[0]), evs[1..], t)
  }

  ghost predicate OnlyReleases(ops: seq<Op>) {
    forall i :: 0 <= i < |ops| ==> ops[i].DoRelease? || ops[i].DoQuery?
  }

  ghost function Reversed(h: seq<Access>): seq<Access> {
    if h == [] then [] else [h[|h| - 1]] + Reversed(h[..|h| - 1])
  }

  ghost function AcquireInReverse(stack: seq<Access>): seq<Op> {
    if stack == [] then [] else AcquireInReverse(stack[1..]) + [DoAcquire(stack[0])]
  }

  lemma {:induction false} ReversedConcat(h: seq<Access>, g: seq<Access>)
    ensures Reversed(h + g) == Reversed(g) + Reversed(h)
  {
    if g == [] {
      assert h + g == h;
    } else {
      ReversedConcat(h, g[..|g| - 1]);
      assert (h + g)[..|h + g| - 1] == h + g[..|g| - 1];
    }
  }

  lemma OwnTail(evs: seq<Event>, t: Tid)
    requires evs != [] && OnlyReleases(Own(evs, t))
    ensures OnlyReleases(Own(evs[1..], t))
    ensures evs[0].tid == t ==> evs[0].op.DoRelease? || evs[0].op.DoQuery?
  {
    var k := if evs[0].tid == t then 1 else 0;
    assert evs[0].tid == t ==> Own(evs, t)[0] == evs[0].op;
    forall i | 0 <= i < |Own(evs[1..], t)|
      ensures Own(evs[1..], t)[i].DoRelease? || Own(evs[1..], t)[i].DoQuery?
    {
      assert Own(evs, t)[i + k] == Own(evs[1..], t)[i];
    }
  }

  lemma PopReversed(h: seq<Access>, rest: seq<Access>, later: seq<Access>)
    requires h != [] && rest + Reversed(later) == h[..|h| - 1]
    ensures rest + Reversed([h[|h| - 1]] + later) == h
  {
    var last := h[|h| - 1];
    ReversedConcat([last], later);
    assert Reversed([last]) == [last];
    assert rest + (Reversed(later) + [last]) == h[..|h| - 1] + [last];
  }

  /** What Release returned so far, reversed, is what is missing at the end of the history. */
  lemma {:induction false} ReleasesReturnTheHistory(s: State, evs: seq<Event>, t: Tid)
    requires Inv(s) && IsRun(s, evs) && OnlyReleases(Own(evs, t))
    ensures HistoryOf(After(s, evs).m, t) + Reversed(Returned(s, evs, t)) == HistoryOf(s.m, t)
    decreases |evs|
  {
    if evs != [] {
      var s' := Next(s, evs[0]);
      StepHistory(s, evs[0], t);
      OwnTail(evs, t);
      ReleasesReturnTheHistory(s', evs[1..], t);
      var h := HistoryOf(s.m, t);
      if evs[0].tid == t && evs[0].op.DoRelease? && h != [] {
        PopReversed(h, HistoryOf(After(s, evs).m, t), Returned(s', evs[1..], t));
      } else {
        assert Returned(s, evs, t) == Returned(s', evs[1..], t);
      }
    }
  }

  lemma {:induction false} ReplayConcat(h: seq<Access>, ops: seq<Op>, more: seq<Op>)
    ensures ReplayAll(h, ops + more) == ReplayAll(ReplayAll(h, ops), more)
    decreases |ops|
  {
    if ops == [] {
      assert ops + more == more;
    } else {
      assert (ops + more)[1..] == ops[1..] + more;
      ReplayConcat(Replay(h, ops[0]), ops[1..], more);
    }
  }

  lemma {:induction false} AcquiringInReverse(stack: seq<Access>)
    ensures ReplayAll([], AcquireInReverse(stack)) == Reversed(stack)
  {
    if stack != [] {
      AcquiringInReverse(stack[1..]);
      ReplayConcat([], AcquireInReverse(stack[1..]), [DoAcquire(stack[0])]);
      var h := ReplayAll([], AcquireInReverse(stack[1..]));
      assert ReplayAll(h, [DoAcquire(stack[0])]) == h + [stack[0]];
      ReversedConcat([stack[0]], stack[1..]);
      assert [stack[0]] + stack[1..] == stack;
      assert Reversed([stack[0]]) == [stack[0]];
    }
  }

  lemma {:induction false} ReversedTwice(h: seq<Access>)
    ensures Reversed(Reversed(h)) == h
  {
    if h != [] {
      ReversedTwice(h[..|h| - 1]);
      ReversedConcat([h[|h| - 1]], Reversed(h[..|h| - 1]));
      assert Reversed([h[|h| - 1]]) == [h[|h| - 1]];
    }
  }

  ghost predicate StaysIn(s: State, t: Tid) {
    Free(s, t) && t !in ByTid(s.m.suspended)
  }

  /** A thread that only releases and asks never waits. */
  lemma {:induction false} ReleasingNeverWaits(s: State, evs: seq<Event>, t: Tid)
    requires Inv(s) && IsRun(s, evs) && OnlyReleases(Own(evs, t)) && StaysIn(s, t)
    ensures Inv(After(s, evs)) && StaysIn(After(s, evs), t)
    decreases |evs|
  {
    if evs != [] {
      var s' := Next(s, evs[0]);
      StepHistory(s, evs[0], t);
      OwnTail(evs, t);
      assert StaysIn(s', t) by { StaysInStep(s, evs[0], t); }
      ReleasingNeverWaits(s', evs[1..], t);
    }
  }

  /** Only the calls of a thread itself suspend or resume it. */
  lemma SuspendedBy(s: State, ev: Event)
    requires Enabled(s, ev)
    ensures Next(s, ev).m.suspended ==
            match ev.op
            case DoSuspend => [ByTid(s.m.active)[ev.tid]] + s.m.suspended
            case DoResume => if ev.tid in ByTid(s.m.suspended) then Without(s.m.suspended, ev.tid) else s.m.suspended
            case DoWake => ClearEvent(s.m.suspended, ev.tid)
            case _ => s.m.suspended
    ensures Next(s, ev).blocked <= s.blocked + {ev.tid} && Next(s, ev).resuming <= s.resuming + {ev.tid}
    ensures ev.op.DoRelease? || ev.op.DoQuery? ==>
              Next(s, ev).blocked == s.blocked && Next(s, ev).resuming == s.resuming
  {
  }

  lemma NotSuspendedStep(s: State, ev: Event, t: Tid)
    requires Inv(s) && Enabled(s, ev) && t !in ByTid(s.m.suspended) && (ev.tid == t ==> !ev.op.DoSuspend?)
    ensures t !in ByTid(Next(s, ev).m.suspended)
  {
    SuspendedBy(s, ev);
    var suspended := s.m.suspended;
    if ev.op.DoSuspend? {
      KeysFacts(s.m.active);
      ConsFacts(ByTid(s.m.active)[ev.tid], suspended);
    } else if ev.op.DoResume? && ev.tid in ByTid(suspended) {
      WithoutFacts(suspended, ev.tid);
    } else if ev.op.DoWake? {
      assert ev.tid !in ByTid(suspended) by { WakeKeeps(s, ev.tid); }
      ClearEventElsewhere(suspended, ev.tid);
    }
  }

  lemma StaysInStep(s: State, ev: Event, t: Tid)
    requires Inv(s) && Enabled(s, ev) && StaysIn(s, t)
    requires ev.tid == t ==> ev.op.DoRelease? || ev.op.DoQuery?
    ensures StaysIn(Next(s, ev), t)
  {
    SuspendedBy(s, ev);
    NotSuspendedStep(s, ev, t);
  }

  /** What a thread calls, as opposed to being woken, going on or asking what it has. */
  ghost predicate IsCall(op: Op) {
    !op.DoWake? && !op.DoContinue? && !op.DoQuery?
  }

  ghost function CallsOf(ops: seq<Op>): seq<Op> {
    if ops == [] then [] else (if IsCall(ops[0]) then [ops[0]] else []) + CallsOf(ops[1..])
  }

  /** Waiting, waking up and asking change no history. */
  lemma {:induction false} ReplayCalls(h: seq<Access>, ops: seq<Op>)
    ensures ReplayAll(h, ops) == ReplayAll(h, CallsOf(ops))
    decreases |ops|
  {
    if ops != [] {
      ReplayCalls(Replay(h, ops[0]), ops[1..]);
      if IsCall(ops[0]) {
        assert CallsOf(ops)[1..] == CallsOf(ops[1..]);
      } else {
        assert CallsOf(ops) == CallsOf(ops[1..]);
      }
    }
  }

  lemma {:induction false} AcquireInReverseAcquires(stack: seq<Access>)
    ensures forall i :: 0 <= i < |AcquireInReverse(stack)| ==> AcquireInReverse(stack)[i].DoAcquire?
  {
    if stack != [] {
      AcquireInReverseAcquires(stack[1..]);
    }
  }

  ghost predicate CallsOnlyAcquire(ops: seq<Op>) {
    forall i :: 0 <= i < |CallsOf(ops)| ==> CallsOf(ops)[i].DoAcquire?
  }

  /** A thread that calls nothing but Acquire is not suspended. */
  lemma {:induction false} AcquiringNeverSuspends(s: State, evs: seq<Event>, t: Tid)
    requires Inv(s) && IsRun(s, evs) && CallsOnlyAcquire(Own(evs, t)) && t !in ByTid(s.m.suspended)
    ensures Inv(After(s, evs)) && t !in ByTid(After(s, evs).m.suspended)
    decreases |evs|
  {
    if evs != [] {
      OwnCallsTail(evs, t);
      StepKeeps(s, evs[0]);
      NotSuspendedStep(s, evs[0], t);
      AcquiringNeverSuspends(Next(s, evs[0]), evs[1..], t);
    }
  }

  lemma OwnCallsTail(evs: seq<Event>, t: Tid)
    requires evs != [] && CallsOnlyAcquire(Own(evs, t))
    ensures CallsOnlyAcquire(Own(evs[1..], t)) && (evs[0].tid == t ==> !evs[0].op.DoSuspend?)
  {
    var ops, later := Own(evs, t), Own(evs[1..], t);
    var first := if evs[0].tid == t then [evs[0].op] else [];
    assert ops == first + later;
    var k := |CallsOf(ops)| - |CallsOf(later)|;
    if first != [] {
      assert ops[1..] == later;
      assert IsCall(ops[0]) ==> CallsOf(ops)[0] == ops[0];
    } else {
      assert ops == later;
    }
    forall i | 0 <= i < |CallsOf(later)|
      ensures CallsOf(later)[i].DoAcquire?
    {
      assert CallsOf(ops)[i + k] == CallsOf(later)[i];
    }
  }

  /** `ReleaseAll` then `AcquireAll`, each step interleaved with anything other threads do, and with the waits of the
      thread itself: the loop of `ReleaseAll` stops (both queries say no) exactly when nothing is left, its stack never
      overflows, and acquiring what it returned, last first, restores the history it started from. When `AcquireAll`
      has returned, the thread is active with that history. */
  lemma ReleaseAllAcquireAll(s: State, down: seq<Event>, up: seq<Event>, t: Tid)
    requires Inv(s) && StaysIn(s, t)
    requires IsRun(s, down) && OnlyReleases(Own(down, t)) && IsRun(After(s, down), up)
    requires CallsOf(Own(up, t)) == AcquireInReverse(Returned(s, down, t))
    ensures |Returned(s, down, t)| <= MAX_NEST
    ensures var m := After(s, down).m;
            HistoryOf(m, t) == [] <==> !HasExclusive(m, t) && !HasShared(m, t)
    ensures HistoryOf(After(s, down).m, t) == [] ==>
              && Returned(s, down, t) == Reversed(HistoryOf(s.m, t))
              && HistoryOf(After(After(s, down), up).m, t) == HistoryOf(s.m, t)
              && BackWith(After(After(s, down), up), t, HistoryOf(s.m, t))
  {
    var s' := After(s, down);
    ReleasingNeverWaits(s, down, t);
    assert HistoryOf(s'.m, t) == [] <==> !HasExclusive(s'.m, t) && !HasShared(s'.m, t) by {
      QueriesInState(s', t);
    }
    ReleasesReturnTheHistory(s, down, t);
    StackFits(s, t, HistoryOf(s'.m, t), Returned(s, down, t));
    if HistoryOf(s'.m, t) == [] {
      assert Reversed(Returned(s, down, t)) == HistoryOf(s.m, t);
      ReversedTwice(Returned(s, down, t));
      AcquireAllRestores(s', up, t, Returned(s, down, t));
    }
  }

  /** Unless it still waits, the thread is active with the given history. */
  ghost predicate BackWith(s: State, t: Tid, h: seq<Access>) {
    Free(s, t) && h != [] ==> t in ByTid(s.m.active) && ByTid(s.m.active)[t].history == h
  }

  lemma AcquireAllRestores(s: State, up: seq<Event>, t: Tid, stack: seq<Access>)
    requires Inv(s) && t !in ByTid(s.m.suspended) && HistoryOf(s.m, t) == []
    requires IsRun(s, up) && CallsOf(Own(up, t)) == AcquireInReverse(stack)
    ensures HistoryOf(After(s, up).m, t) == Reversed(stack) && BackWith(After(s, up), t, Reversed(stack))
  {
    HistoryIsOwn(s, up, t);
    ReplayCalls([], Own(up, t));
    AcquiringInReverse(stack);
    AcquireInReverseAcquires(stack);
    AcquiringNeverSuspends(s, up, t);
  }

  lemma {:induction false} ReversedLength(h: seq<Access>)
    ensures |Reversed(h)| == |h|
  {
    if h != [] {
      ReversedLength(h[..|h| - 1]);
    }
  }

  lemma StackFits(s: State, t: Tid, rest: seq<Access>, returned: seq<Access>)
    requires Inv(s) && rest + Reversed(returned) == HistoryOf(s.m, t)
    ensures |returned| <= MAX_NEST
  {
    ReversedLength(returned);
    assert |HistoryOf(s.m, t)| <= MAX_NEST;
  }
}
