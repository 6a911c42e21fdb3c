/**
 When the access manager grants access, said in terms of what the threads hold:
 readers share, a nested access never waits, and a waiter waits for a reason.
 */
module AccessGrants {
  import opened AccessModel
  import opened AccessRuns
  import opened AccessTheorems

  // ---------------------------------------------------------------- totals and holders

  lemma {:induction false} SomebodyExclusive(es: seq<Entry>)
    ensures Total(es, Exclusive) > 0 <==> exists e :: e in es && Exclusive in e.history
  {
    if es != [] {
      SomebodyExclusive(es[1..]);
      assert es == [es[0]] + es[1..];
      if exists e :: e in es && Exclusive in e.history {
        var e :| e in es && Exclusive in e.history;
        assert e == es[0] || e in es[1..];
      }
      if Total(es, Exclusive) > 0 && Exclusive !in es[0].history {
        var e :| e in es[1..] && Exclusive in e.history;
        assert e in es;
      }
      if Exclusive in es[0].history {
        assert es[0] in es;
      }
    }
  }

  lemma {:induction false} OthersOnly(es: seq<Entry>, t: Tid)
    requires Distinct(es) && t in ByTid(es)
    ensures forall e :: e in Without(es, t) <==> e in es && e.tid != t
  {
    KeysFacts(es[1..]);
    EntriesInTable(es[1..]);
    if es[0].tid != t {
      OthersOnly(es[1..], t);
      forall e
        ensures e in Without(es, t) <==> e in es && e.tid != t
      {
        assert e in es <==> e == es[0] || e in es[1..];
        assert e in Without(es, t) <==> e == es[0] || e in Without(es[1..], t);
      }
    }
  }

  lemma {:induction false} EntriesInTable(es: seq<Entry>)
    ensures forall e :: e in es ==> e.tid in ByTid(es)
  {
    if es != [] {
      EntriesInTable(es[1..]);
    }
  }

  /** Some thread other than t is active. */
  ghost predicate OtherActive(m: Manager, t: Tid) {
    exists e :: e in m.active && e.tid != t
  }

  /** Some thread other than t is active and holds exclusive access. */
  ghost predicate OtherExclusive(m: Manager, t: Tid) {
    exists e :: e in m.active && e.tid != t && Exclusive in e.history
  }

  ghost function Others(m: Manager, t: Tid): seq<Entry> {
    if t in ByTid(m.active) then Without(m.active, t) else m.active
  }

  lemma OthersAre(m: Manager, t: Tid)
    requires Distinct(m.active) && DepthOk(ByTid(m.active))
    ensures DepthOk(ByTid(Others(m, t)))
    ensures forall e :: e in Others(m, t) <==> e in m.active && e.tid != t
  {
    EntriesInTable(m.active);
    if t in ByTid(m.active) {
      OthersOnly(m.active, t);
      WithoutFacts(m.active, t);
    }
  }

  /** What stands against letting a request in, in terms of what the other active threads hold. */
  lemma BlockedMeans(m: Manager, t: Tid, e: Entry)
    requires Distinct(m.active) && DepthOk(ByTid(m.active))
    ensures Blocked(Others(m, t), e) <==> OtherExclusive(m, t) || (Exclusive in e.history && OtherActive(m, t))
  {
    var rest := Others(m, t);
    OthersAre(m, t);
    SomebodyExclusive(rest);
    TotalsDetectEmpty(rest);
    if rest != [] {
      assert rest[0] in rest;
    }
    assert e.Count(Exclusive) > 0 <==> Exclusive in e.history;
    if exists x :: x in rest && Exclusive in x.history {
      var x :| x in rest && Exclusive in x.history;
      assert x in m.active && x.tid != t;
    }
    if OtherExclusive(m, t) {
      var x :| x in m.active && x.tid != t && Exclusive in x.history;
      assert x in rest;
    }
  }

  // ---------------------------------------------------------------- asking

  /** What decides whether a thread that will hold the history h gets it now. */
  ghost predicate MayEnter(m: Manager, t: Tid, h: seq<Access>) {
    && m.pending == []
    && !OtherExclusive(m, t)
    && (Exclusive in h ==> !OtherActive(m, t))
  }

  /** The thread asks with request e, which is in no list. */
  lemma AskingMeans(m: Manager, t: Tid, m': Manager, e: Entry)
    requires Distinct(m.active) && DepthOk(ByTid(m.active)) && DepthOk(ByTid(m.pending))
    requires m'.active == Others(m, t) && m'.pending == m.pending
    ensures SatisfyOwn(m', e).waits <==> !MayEnter(m, t, e.history)
    ensures SatisfyOwn(m', e).waits ==>
              && SatisfyOwn(m', e).m.pending != []
              && SatisfyOwn(m', e).m.pending[|SatisfyOwn(m', e).m.pending| - 1] == e
  {
    BlockedMeans(m, t, e);
    TotalsDetectEmpty(m.pending);
  }

  lemma FirstAsks(s: State, t: Tid, a: Access)
    requires Inv(s) && Enabled(s, Event(t, DoAcquire(a))) && t !in ByTid(s.m.active)
    ensures Decided(s, t, DoAcquire(a))
  {
    var m' := if s.m.spare == [] then s.m else s.m.(spare := s.m.spare[1..]);
    AskingMeans(s.m, t, m', Entry(t, [a], s.m.spare != [] && s.m.spare[0]));
    assert HistoryOf(s.m, t) == [] && [] + [a] == [a];
  }

  lemma PromotionAsks(s: State, t: Tid)
    requires Inv(s) && Enabled(s, Event(t, DoAcquire(Exclusive))) && t in ByTid(s.m.active)
    requires ByTid(s.m.active)[t].Count(Exclusive) == 0
    ensures Decided(s, t, DoAcquire(Exclusive))
  {
    KeysFacts(s.m.active);
    var e := ByTid(s.m.active)[t];
    AskingMeans(s.m, t, s.m.(active := Without(s.m.active, t)), e.(history := e.history + [Exclusive]));
  }

  lemma ResumptionAsks(s: State, t: Tid)
    requires Inv(s) && Enabled(s, Event(t, DoResume)) && t in ByTid(s.m.suspended)
    ensures Decided(s, t, DoResume)
  {
    KeysFacts(s.m.suspended);
    AskingMeans(s.m, t, s.m.(suspended := Without(s.m.suspended, t)), ByTid(s.m.suspended)[t]);
  }

  /** Active threads get on with each other. */
  lemma ActiveMayStay(s: State, t: Tid)
    requires Inv(s) && t in ByTid(s.m.active)
    ensures !OtherExclusive(s.m, t) && (Exclusive in HistoryOf(s.m, t) ==> !OtherActive(s.m, t))
  {
    KeysFacts(s.m.active);
    var e := ByTid(s.m.active)[t];
    SomebodyExclusive(s.m.active);
    if Total(s.m.active, Exclusive) > 0 {
      assert s.m.active == [e];
    }
  }

  lemma ReacquisitionAsks(s: State, t: Tid)
    requires Inv(s) && Enabled(s, Event(t, DoReacquireAtEnd))
    ensures Decided(s, t, DoReacquireAtEnd)
  {
    KeysFacts(s.m.active);
    TotalsDetectEmpty(s.m.pending);
    ActiveMayStay(s, t);
    if s.m.pending != [] {
      AskingMeans(s.m, t, s.m.(active := Without(s.m.active, t)), ByTid(s.m.active)[t]);
    }
  }

  /** The thread waits exactly if it may not enter, and then at the end of the line. */
  ghost predicate Decided(s: State, t: Tid, op: Op)
    requires Enabled(s, Event(t, op))
  {
    var s' := Next(s, Event(t, op));
    && (t !in s'.blocked <==> MayEnter(s.m, t, Replay(HistoryOf(s.m, t), op)))
    && (t in s'.blocked ==> s'.m.pending != [] && s'.m.pending[|s'.m.pending| - 1].tid == t)
  }

  lemma AskedMeans(s: State, t: Tid, op: Op)
    requires Inv(s) && Enabled(s, Event(t, op)) && Asks(s.m, t, op)
    ensures Decided(s, t, op)
  {
    match op
    case DoAcquire(a) =>
      if t in ByTid(s.m.active) {
        PromotionAsks(s, t);
      } else {
        FirstAsks(s, t, a);
      }
    case DoResume => ResumptionAsks(s, t);
    case DoReacquireAtEnd => ReacquisitionAsks(s, t);
  }

  /** A first access, a promotion, a resumption and a reacquisition are granted at once if and only if nobody waits, no
      other active thread holds exclusive access, and nobody else is active or the thread will hold none itself.
      Otherwise the thread joins the end of the line. Either way it has the history it asked for. */
  lemma GrantedAtOnce(s: State, t: Tid, op: Op)
    requires Inv(s) && Enabled(s, Event(t, op)) && Asks(s.m, t, op)
    ensures var s' := Next(s, Event(t, op)); var h := Replay(HistoryOf(s.m, t), op);
            && HistoryOf(s'.m, t) == h
            && (t !in s'.blocked <==> MayEnter(s.m, t, h))
            && (t !in s'.blocked ==> t in ByTid(s'.m.active))
            && (t in s'.blocked ==> s'.m.pending != [] && s'.m.pending[|s'.m.pending| - 1].tid == t)
  {
    AskedMeans(s, t, op);
    assert HistoryOf(Next(s, Event(t, op)).m, t) == Replay(HistoryOf(s.m, t), op) by { StepKeeps(s, Event(t, op)); }
    GrantedIsActive(s, t, op);
  }

  /** A thread that asks is not suspended afterwards, so if it does not wait it is active. */
  lemma GrantedIsActive(s: State, t: Tid, op: Op)
    requires Inv(s) && Enabled(s, Event(t, op)) && Asks(s.m, t, op)
    ensures var s' := Next(s, Event(t, op)); t !in s'.blocked ==> t in ByTid(s'.m.active)
  {
    var s' := Next(s, Event(t, op));
    SuspendedBy(s, Event(t, op));
    if op.DoResume? {
      WithoutFacts(s.m.suspended, t);
    }
    assert t !in ByTid(s'.m.suspended);
    StepKeeps(s, Event(t, op));
    HasHistory(s, t, op);
    Placed(s', t);
  }

  lemma HasHistory(s: State, t: Tid, op: Op)
    requires Inv(s) && Enabled(s, Event(t, op)) && Asks(s.m, t, op)
    ensures Replay(HistoryOf(s.m, t), op) != []
  {
  }

  lemma Placed(s: State, t: Tid)
    requires Inv(s) && HistoryOf(s.m, t) != [] && t !in ByTid(s.m.suspended)
    ensures t !in s.blocked ==> t in ByTid(s.m.active)
  {
  }

  // ---------------------------------------------------------------- nesting

  /** A thread that is active and adds a shared access, or any access to an exclusive one, has it at once, whoever
      waits. Nothing changes for anybody else. */
  lemma NestedIsImmediate(s: State, t: Tid, a: Access)
    requires Inv(s) && Enabled(s, Event(t, DoAcquire(a))) && t in ByTid(s.m.active)
    requires a == Shared || Exclusive in HistoryOf(s.m, t)
    ensures var s' := Next(s, Event(t, DoAcquire(a)));
            && t in ByTid(s'.m.active) && ByTid(s'.m.active)[t].history == HistoryOf(s.m, t) + [a]
            && s'.blocked == s.blocked && s'.resuming == s.resuming
            && s'.arrived == s.arrived && s'.granted == s.granted
            && s'.m.pending == s.m.pending && s'.m.suspended == s.m.suspended && s'.m.spare == s.m.spare
            && forall x :: x != t ==>
                 && (x in ByTid(s'.m.active) <==> x in ByTid(s.m.active))
                 && (x in ByTid(s.m.active) ==> ByTid(s'.m.active)[x] == ByTid(s.m.active)[x])
  {
    var e := ByTid(s.m.active)[t];
    KeysFacts(s.m.active);
    assert e.Count(Exclusive) > 0 <==> Exclusive in e.history;
    WithoutFacts(s.m.active, t);
    ConsFacts(e.(history := e.history + [a]), Without(s.m.active, t));
  }

  // ---------------------------------------------------------------- waiting for a reason

  /** Some active thread has been let in from the line and has yet to look at the line again. */
  ghost predicate SomebodyOnTheWay(s: State) {
    exists t :: t in ByTid(s.m.active) && (EventSet(s.m, t) || t in s.resuming)
  }

  /** After every run: if threads wait and nobody is on the way to serve the line, some active thread holds exclusive
      access, or the first in line wants it and somebody is active. In particular nobody waits for a free lock. */
  lemma NobodyForgotten(evs: seq<Event>)
    requires IsRun(Init(), evs)
    ensures var s := After(Init(), evs);
            && (s.m.pending != [] && !SomebodyOnTheWay(s) ==>
                  || (exists e :: e in s.m.active && Exclusive in e.history)
                  || (Exclusive in s.m.pending[0].history && s.m.active != []))
            && (s.m.active == [] ==> s.m.pending == [])
  {
    var s := After(Init(), evs);
    assert Inv(s) by {
      InitOk();
      RunKeeps(Init(), evs);
    }
    if s.m.pending != [] && !SomebodyOnTheWay(s) {
      ReasonInState(s);
    }
  }

  lemma ReasonInState(s: State)
    requires Inv(s) && s.m.pending != [] && !SomebodyOnTheWay(s)
    ensures || (exists e :: e in s.m.active && Exclusive in e.history)
            || (Exclusive in s.m.pending[0].history && s.m.active != [])
  {
    var e := s.m.pending[0];
    SomebodyExclusive(s.m.active);
    TotalsDetectEmpty(s.m.active);
    assert e.Count(Exclusive) > 0 <==> Exclusive in e.history;
  }

  /** Readers share: while nobody waits and no exclusive access is held, shared access is granted at once. */
  lemma ReadersShare(s: State, t: Tid)
    requires Inv(s) && Enabled(s, Event(t, DoAcquire(Shared))) && t !in ByTid(s.m.active)
    requires s.m.pending == [] && forall e :: e in s.m.active ==> Exclusive !in e.history
    ensures var s' := Next(s, Event(t, DoAcquire(Shared))); t !in s'.blocked && t in ByTid(s'.m.active)
  {
    GrantedAtOnce(s, t, DoAcquire(Shared));
    assert HistoryOf(s.m, t) == [];
  }

  // ---------------------------------------------------------------- requests

  ghost function Requests(m: Manager): nat {
    |m.active| + |m.pending| + |m.suspended| + |m.spare|
  }

  lemma ServingConserves(m: Manager, e: Entry)
    ensures Requests(SatisfyHead(m).m) == Requests(m)
    ensures Requests(SatisfyOwn(m, e).m) == Requests(m) + 1
  {
  }

  /** Requests are recycled: none is lost, and one is made only if a thread without one comes and none is spare. */
  lemma RequestsConserved(s: State, ev: Event)
    requires Inv(s) && Enabled(s, ev)
    ensures Requests(Next(s, ev).m) == Requests(s.m)
            + if ev.op.DoAcquire? && HistoryOf(s.m, ev.tid) == [] && s.m.spare == [] then 1 else 0
  {
    var t := ev.tid;
    match ev.op
    case DoAcquire(a) => AcquiringConserves(s, t, a);
    case DoRelease => ReleasingConserves(s, t);
    case DoSuspend => LeavingConserves(s, t);
    case DoResume => ResumingConserves(s, t);
    case DoReacquireAtEnd => LeavingConserves(s, t);
    case DoQuery => QueryConserves(s, t);
    case DoWake => WakingConserves(s, t);
    case DoContinue => ServingConserves(s.m, Entry(t, [], false));
  }

  lemma ReleasingConserves(s: State, t: Tid)
    requires Inv(s) && t in ByTid(s.m.active)
    ensures Requests(Release(s.m, t).m) == Requests(s.m)
  {
    WithoutFacts(s.m.active, t);
    assert Requests(GivenBack(s.m, t)) == Requests(s.m);
    ServingConserves(GivenBack(s.m, t), ByTid(s.m.active)[t]);
  }

  lemma LeavingConserves(s: State, t: Tid)
    requires Inv(s) && t in ByTid(s.m.active)
    ensures Requests(Suspend(s.m, t).m) == Requests(s.m)
    ensures Requests(ReacquireAtEnd(s.m, t).m) == Requests(s.m)
  {
    var m, e := s.m, ByTid(s.m.active)[t];
    var rest := m.(active := Without(m.active, t));
    WithoutFacts(m.active, t);
    ServingConserves(rest.(suspended := [e] + m.suspended), e);
    ServingConserves(rest, e);
  }

  lemma ResumingConserves(s: State, t: Tid)
    requires Inv(s)
    ensures Requests(Resume(s.m, t).m) == Requests(s.m)
  {
    if t in ByTid(s.m.suspended) {
      WithoutFacts(s.m.suspended, t);
      ServingConserves(s.m.(suspended := Without(s.m.suspended, t)), ByTid(s.m.suspended)[t]);
    }
  }

  lemma QueryConserves(s: State, t: Tid)
    requires Inv(s)
    ensures Requests(Touch(s.m, t)) == Requests(s.m)
  {
    if t in ByTid(s.m.active) {
      WithoutFacts(s.m.active, t);
    }
  }

  lemma WakingConserves(s: State, t: Tid)
    requires Inv(s) && Enabled(s, Event(t, DoWake))
    ensures Requests(Next(s, Event(t, DoWake)).m) == Requests(s.m)
  {
    WakeKeeps(s, t);
    ClearEventFacts(s.m.active, t);
    ClearEventElsewhere(s.m.pending, t);
    ClearEventElsewhere(s.m.suspended, t);
  }

  lemma AcquiringConserves(s: State, t: Tid, a: Access)
    requires Inv(s) && Enabled(s, Event(t, DoAcquire(a)))
    ensures Requests(Acquire(s.m, t, a).m) == Requests(s.m)
            + if HistoryOf(s.m, t) == [] && s.m.spare == [] then 1 else 0
  {
    var m := s.m;
    if t in ByTid(m.active) {
      var e := ByTid(m.active)[t];
      WithoutFacts(m.active, t);
      ServingConserves(m.(active := Without(m.active, t)), e.(history := e.history + [a]));
    } else {
      var m' := if m.spare == [] then m else m.(spare := m.spare[1..]);
      ServingConserves(m', Entry(t, [a], m.spare != [] && m.spare[0]));
    }
  }
}
