/**
 Every interleaving of threads on one access manager. Each event is one
 critical section of one thread, or the moment a waiting thread's event lets
 it go. The module proves what holds after any sequence of events.
 */
module AccessRuns {
  import opened AccessModel
  import opened Sequences

  /** `blocked` threads are inside `WaitForSignal`; `resuming` ones have left it but not yet re-entered the lock.
      `arrived` and `granted` record who joined the waiting line and who was let in from it. */
  datatype State = State(
    m: Manager,
    blocked: set<Tid>,
    resuming: set<Tid>,
    arrived: seq<Tid>,
    granted: seq<Tid>)

  datatype Op =
    | DoAcquire(access: Access)
    | DoRelease
    | DoSuspend
    | DoResume
    | DoReacquireAtEnd
    | DoQuery
    | DoWake        // the event lets the thread out of WaitForSignal
    | DoContinue    // the thread is back in the lock and serves the next waiter

  datatype Event = Event(tid: Tid, op: Op)

  ghost function Init(): State {
    State(Manager([], [], [], Reset(INITIAL_REQUESTS)), {}, {}, [], [])
  }

  type Table = map<Tid, Entry>

  ghost function HistoryIn(a: Table, p: Table, u: Table, t: Tid): seq<Access> {
    if t in a then a[t].history
    else if t in p then p[t].history
    else if t in u then u[t].history
    else []
  }

  /** The accesses thread t has asked for and not given back, oldest first. */
  ghost function HistoryOf(m: Manager, t: Tid): seq<Access> {
    HistoryIn(ByTid(m.active), ByTid(m.pending), ByTid(m.suspended), t)
  }

  ghost predicate EventSet(m: Manager, t: Tid) {
    || (t in ByTid(m.active) && ByTid(m.active)[t].signalled)
    || (t in ByTid(m.pending) && ByTid(m.pending)[t].signalled)
    || (t in ByTid(m.suspended) && ByTid(m.suspended)[t].signalled)
  }

  ghost predicate Free(s: State, t: Tid) {
    t !in s.blocked && t !in s.resuming
  }

  /** When a thread may take a step: what the class demands of its callers. */
  ghost predicate Enabled(s: State, ev: Event) {
    var t := ev.tid;
    match ev.op
    case DoAcquire(_) => Free(s, t) && t !in ByTid(s.m.suspended) && |HistoryOf(s.m, t)| < MAX_NEST
    case DoRelease => Free(s, t) && t in ByTid(s.m.active) && ByTid(s.m.active)[t].history != []
    case DoSuspend => Free(s, t) && t in ByTid(s.m.active)
                      && (ByTid(s.m.active)[t].Count(Exclusive) > 0 ==> |ByTid(s.m.active)[t].history| < MAX_NEST)
    case DoResume => Free(s, t) && (t in ByTid(s.m.suspended) || t in ByTid(s.m.active))
    case DoReacquireAtEnd => Free(s, t) && t in ByTid(s.m.active)
    case DoQuery => Free(s, t)
    case DoWake => t in s.blocked && EventSet(s.m, t)
    case DoContinue => t in s.resuming
  }

  /** Clears the auto-reset event of t's request, wherever that request is. */
  ghost function ClearEvent(es: seq<Entry>, t: Tid): seq<Entry> {
    if es == [] then []
    else if es[0].tid == t then [es[0].(signalled := false)] + es[1..]
    else [es[0]] + ClearEvent(es[1..], t)
  }

  ghost function Settle(s: State, t: Tid, o: Outcome): State {
    s.(m := o.m,
       blocked := if o.waits then s.blocked + {t} else s.blocked,
       arrived := if o.waits then s.arrived + [t] else s.arrived,
       granted := s.granted + o.woke)
  }

  ghost function Next(s: State, ev: Event): State
    requires Enabled(s, ev)
  {
    var t := ev.tid;
    match ev.op
    case DoAcquire(a) => Settle(s, t, Acquire(s.m, t, a))
    case DoRelease => Settle(s, t, Release(s.m, t))
    case DoSuspend => Settle(s, t, Suspend(s.m, t))
    case DoResume => Settle(s, t, Resume(s.m, t))
    case DoReacquireAtEnd => Settle(s, t, ReacquireAtEnd(s.m, t))
    case DoQuery => s.(m := Touch(s.m, t))
    case DoWake =>
      s.(m := s.m.(active := ClearEvent(s.m.active, t),
                   pending := ClearEvent(s.m.pending, t),
                   suspended := ClearEvent(s.m.suspended, t)),
         blocked := s.blocked - {t},
         resuming := s.resuming + {t})
    case DoContinue => Settle(s, t, SatisfyHead(s.m)).(resuming := s.resuming - {t})
  }

  ghost predicate IsRun(s: State, evs: seq<Event>)
    decreases |evs|
  {
    evs == [] || (Enabled(s, evs[0]) && IsRun(Next(s, evs[0]), evs[1..]))
  }

  ghost function After(s: State, evs: seq<Event>): State
    requires IsRun(s, evs)
    decreases |evs|
  {
    if evs == [] then s else After(Next(s, evs[0]), evs[1..])
  }

  // ---------------------------------------------------------------- the invariant

  ghost predicate Disjoint(a: Table, p: Table, u: Table) {
    && (forall t :: t in a ==> t !in p && t !in u)
    && (forall t :: t in p ==> t !in u)
  }

  ghost predicate DepthOk(table: Table) {
    forall t :: t in table ==> 1 <= |table[t].history| <= MAX_NEST
  }

  /** The pairing of requests, events and waiting threads. A waiting thread is in the line, or it has been let in
      and its event is set; no other event is set. */
  ghost predicate Paired(a: Table, p: Table, u: Table, blocked: set<Tid>, resuming: set<Tid>) {
    && Disjoint(a, p, u)
    && DepthOk(a) && DepthOk(p) && DepthOk(u)
    && (forall t :: t in p ==> !p[t].signalled && t in blocked)
    && (forall t :: t in u ==> !u[t].signalled)
    && (forall t :: t in a && a[t].signalled ==> t in blocked)
    && (forall t :: t in blocked ==> t in p || (t in a && a[t].signalled))
    && (forall t :: t in resuming ==> t in a && t !in blocked)
  }

  /** Exclusive access is exclusive. */
  ghost predicate MutuallyExclusive(active: seq<Entry>) {
    Total(active, Exclusive) > 0 ==> |active| == 1
  }

  ghost predicate ListsOk(m: Manager) {
    && Distinct(m.active) && Distinct(m.pending) && Distinct(m.suspended)
    && MutuallyExclusive(m.active)
    && true !in m.spare
  }

  ghost predicate Core(m: Manager, blocked: set<Tid>, resuming: set<Tid>) {
    && ListsOk(m)
    && Paired(ByTid(m.active), ByTid(m.pending), ByTid(m.suspended), blocked, resuming)
  }

  /** Some thread has been let in from the line and will look at the line again. */
  ghost predicate SomeoneWaking(a: Table, resuming: set<Tid>) {
    exists t :: t in a && (a[t].signalled || t in resuming)
  }

  /** Somebody waits only behind an access that excludes them, or behind a thread about to serve the line. */
  ghost predicate NoLostWakeup(m: Manager, resuming: set<Tid>) {
    m.pending == [] || Blocked(m.active, m.pending[0]) || SomeoneWaking(ByTid(m.active), resuming)
  }

  ghost predicate Inv(s: State) {
    && Core(s.m, s.blocked, s.resuming)
    && NoLostWakeup(s.m, s.resuming)
    && s.arrived == s.granted + Tids(s.m.pending)
  }

  ghost predicate FreshEntry(e: Entry, a: Table, p: Table, u: Table, resuming: set<Tid>) {
    && e.tid !in a && e.tid !in p && e.tid !in u && e.tid !in resuming
    && !e.signalled && 1 <= |e.history| <= MAX_NEST
  }

  ghost predicate CanJoin(e: Entry, m: Manager, resuming: set<Tid>) {
    FreshEntry(e, ByTid(m.active), ByTid(m.pending), ByTid(m.suspended), resuming)
  }

  /** Every thread but t has the same history in both places, and t has history h in the second. */
  ghost predicate OnlyIn(a: Table, p: Table, u: Table, a': Table, p': Table, u': Table, t: Tid, h: seq<Access>) {
    && HistoryIn(a', p', u', t) == h
    && forall x :: x != t ==> HistoryIn(a', p', u', x) == HistoryIn(a, p, u, x)
  }

  ghost predicate OnlyChanges(m: Manager, m': Manager, t: Tid, h: seq<Access>) {
    OnlyIn(ByTid(m.active), ByTid(m.pending), ByTid(m.suspended),
           ByTid(m'.active), ByTid(m'.pending), ByTid(m'.suspended), t, h)
  }

  // ---------------------------------------------------------------- facts about tables

  lemma TableLetIn(a: Table, p: Table, u: Table, blocked: set<Tid>, resuming: set<Tid>, t: Tid)
    requires Paired(a, p, u, blocked, resuming) && t in p
    ensures var a' := a[t := p[t].(signalled := true)];
            && Paired(a', p - {t}, u, blocked, resuming)
            && OnlyIn(a, p, u, a', p - {t}, u, t, p[t].history)
            && HistoryIn(a, p, u, t) == p[t].history
            && SomeoneWaking(a', resuming)
  {
    assert a[t := p[t].(signalled := true)][t].signalled;
  }

  lemma TableJoinActive(a: Table, p: Table, u: Table, blocked: set<Tid>, resuming: set<Tid>, e: Entry)
    requires Paired(a, p, u, blocked, resuming) && FreshEntry(e, a, p, u, resuming)
    ensures Paired(a[e.tid := e], p, u, blocked, resuming)
    ensures OnlyIn(a, p, u, a[e.tid := e], p, u, e.tid, e.history)
  {
  }

  lemma TableJoinPending(a: Table, p: Table, u: Table, blocked: set<Tid>, resuming: set<Tid>, e: Entry)
    requires Paired(a, p, u, blocked, resuming) && FreshEntry(e, a, p, u, resuming)
    ensures Paired(a, p[e.tid := e], u, blocked + {e.tid}, resuming)
    ensures OnlyIn(a, p, u, a, p[e.tid := e], u, e.tid, e.history)
  {
  }

  lemma TableJoinSuspended(a: Table, p: Table, u: Table, blocked: set<Tid>, resuming: set<Tid>, e: Entry)
    requires Paired(a, p, u, blocked, resuming) && FreshEntry(e, a, p, u, resuming)
    ensures Paired(a, p, u[e.tid := e], blocked, resuming)
    ensures OnlyIn(a, p, u, a, p, u[e.tid := e], e.tid, e.history)
  {
  }

  lemma TableLeave(a: Table, p: Table, u: Table, blocked: set<Tid>, resuming: set<Tid>, t: Tid)
    requires Paired(a, p, u, blocked, resuming) && t !in blocked && t !in resuming
    ensures t in a ==>
              && Paired(a - {t}, p, u, blocked, resuming) && OnlyIn(a, p, u, a - {t}, p, u, t, [])
              && (a[t].tid == t ==> FreshEntry(a[t], a - {t}, p, u, resuming))
    ensures t in u ==>
              && Paired(a, p, u - {t}, blocked, resuming) && OnlyIn(a, p, u, a, p, u - {t}, t, [])
              && (u[t].tid == t ==> FreshEntry(u[t], a, p, u - {t}, resuming))
  {
  }

  // ---------------------------------------------------------------- the two forms of SatisfyRequest

  lemma LetIn(m: Manager)
    requires ListsOk(m) && m.pending != [] && !Blocked(m.active, m.pending[0])
    requires m.pending[0].tid !in ByTid(m.active) && DepthOk(ByTid(m.active))
    ensures var o := SatisfyHead(m); var e := m.pending[0];
            && ListsOk(o.m)
            && e.tid in ByTid(m.pending) && ByTid(m.pending)[e.tid] == e
            && ByTid(o.m.active) == ByTid(m.active)[e.tid := e.(signalled := true)]
            && ByTid(o.m.pending) == ByTid(m.pending) - {e.tid}
            && Tids(m.pending) == o.woke + Tids(o.m.pending)
  {
    var e := m.pending[0];
    ConsFacts(e.(signalled := true), m.active);
    assert m.pending == [e] + m.pending[1..];
    ConsFacts(e, m.pending[1..]);
    TotalsDetectEmpty(m.active);
  }

  /** Serving the head of the line keeps everything, and afterwards the line is served. */
  lemma SatisfyHeadKeeps(m: Manager, blocked: set<Tid>, resuming: set<Tid>)
    requires Core(m, blocked, resuming)
    ensures var o := SatisfyHead(m);
            && Core(o.m, blocked, resuming) && NoLostWakeup(o.m, resuming)
            && (forall t :: HistoryOf(o.m, t) == HistoryOf(m, t))
            && (forall e :: CanJoin(e, m, resuming) ==> CanJoin(e, o.m, resuming))
            && Tids(m.pending) == o.woke + Tids(o.m.pending)
            && (o.m == m || SomeoneWaking(ByTid(o.m.active), resuming))
  {
    if m.pending != [] && !Blocked(m.active, m.pending[0]) {
      KeysFacts(m.pending);
      LetIn(m);
      TableLetIn(ByTid(m.active), ByTid(m.pending), ByTid(m.suspended), blocked, resuming, m.pending[0].tid);
    }
  }

  lemma ActivateOwn(m: Manager, blocked: set<Tid>, resuming: set<Tid>, e: Entry)
    requires Core(m, blocked, resuming) && !Blocked(m.active, e) && CanJoin(e, m, resuming)
    ensures var m' := m.(active := [e] + m.active);
            && Core(m', blocked, resuming) && OnlyChanges(m, m', e.tid, e.history)
  {
    TotalsDetectEmpty(m.active);
    ConsFacts(e, m.active);
    TableJoinActive(ByTid(m.active), ByTid(m.pending), ByTid(m.suspended), blocked, resuming, e);
  }

  lemma LineUp(m: Manager, blocked: set<Tid>, resuming: set<Tid>, e: Entry)
    requires Core(m, blocked, resuming) && CanJoin(e, m, resuming)
    ensures var m' := m.(pending := m.pending + [e]);
            && Core(m', blocked + {e.tid}, resuming) && OnlyChanges(m, m', e.tid, e.history)
            && Tids(m'.pending) == Tids(m.pending) + [e.tid]
  {
    SnocFacts(m.pending, e);
    TableJoinPending(ByTid(m.active), ByTid(m.pending), ByTid(m.suspended), blocked, resuming, e);
  }

  /** Serving the head of the line and then joining it. */
  lemma ServeAndLineUp(m: Manager, blocked: set<Tid>, resuming: set<Tid>, e: Entry)
    requires Core(m, blocked, resuming) && CanJoin(e, m, resuming)
    requires m.pending != [] || Blocked(m.active, e)
    ensures var o := SatisfyHead(m); var m' := o.m.(pending := o.m.pending + [e]);
            && Core(m', blocked + {e.tid}, resuming) && NoLostWakeup(m', resuming)
            && OnlyChanges(m, m', e.tid, e.history)
            && Tids(m.pending) + [e.tid] == o.woke + Tids(m'.pending)
  {
    var h := SatisfyHead(m).m;
    SatisfyHeadKeeps(m, blocked, resuming);
    LineUp(h, blocked, resuming, e);
    StillServed(m, h, resuming, e);
    Reassociate(SatisfyHead(m).woke, Tids(h.pending), [e.tid]);
  }

  /** Joining the end of a line that is served leaves it served; joining an empty one, too, if it is for a reason. */
  lemma StillServed(m: Manager, h: Manager, resuming: set<Tid>, e: Entry)
    requires m.pending != [] || Blocked(m.active, e)
    requires NoLostWakeup(h, resuming) && (h == m || SomeoneWaking(ByTid(h.active), resuming))
    ensures NoLostWakeup(h.(pending := h.pending + [e]), resuming)
  {
  }

  lemma SatisfyOwnKeeps(m: Manager, blocked: set<Tid>, resuming: set<Tid>, e: Entry)
    requires Core(m, blocked, resuming) && CanJoin(e, m, resuming)
    ensures var o := SatisfyOwn(m, e);
            && Core(o.m, if o.waits then blocked + {e.tid} else blocked, resuming)
            && NoLostWakeup(o.m, resuming)
            && OnlyChanges(m, o.m, e.tid, e.history)
            && Tids(m.pending) + (if o.waits then [e.tid] else []) == o.woke + Tids(o.m.pending)
            && (!o.waits ==> m.pending == [])
  {
    TotalsDetectEmpty(m.pending);
    if TotalAccesses(m.pending) == 0 && !Blocked(m.active, e) {
      ActivateOwn(m, blocked, resuming, e);
    } else {
      ServeAndLineUp(m, blocked, resuming, e);
    }
  }

  // ---------------------------------------------------------------- every step keeps the invariant

  /** Taking a free thread's request off the active list. */
  lemma DetachActive(m: Manager, blocked: set<Tid>, resuming: set<Tid>, t: Tid)
    requires Core(m, blocked, resuming) && t !in blocked && t !in resuming && t in ByTid(m.active)
    ensures var m' := m.(active := Without(m.active, t)); var e := ByTid(m.active)[t];
            && Core(m', blocked, resuming)
            && e.tid == t && CanJoin(e, m', resuming)
            && HistoryOf(m, t) == e.history && OnlyChanges(m, m', t, [])
            && Total(m'.active, Exclusive) == 0
            && (e.Count(Exclusive) > 0 ==> m'.active == [])
  {
    WithoutFacts(m.active, t);
    KeysFacts(m.active);
    TableLeave(ByTid(m.active), ByTid(m.pending), ByTid(m.suspended), blocked, resuming, t);
  }

  lemma DetachSuspended(m: Manager, blocked: set<Tid>, resuming: set<Tid>, t: Tid)
    requires Core(m, blocked, resuming) && t !in blocked && t !in resuming && t in ByTid(m.suspended)
    ensures var m' := m.(suspended := Without(m.suspended, t)); var e := ByTid(m.suspended)[t];
            && Core(m', blocked, resuming)
            && e.tid == t && CanJoin(e, m', resuming)
            && HistoryOf(m, t) == e.history && OnlyChanges(m, m', t, [])
  {
    WithoutFacts(m.suspended, t);
    KeysFacts(m.suspended);
    TableLeave(ByTid(m.active), ByTid(m.pending), ByTid(m.suspended), blocked, resuming, t);
  }

  lemma Compose(m: Manager, m': Manager, m'': Manager, t: Tid, h': seq<Access>, h'': seq<Access>)
    requires OnlyChanges(m, m', t, h') && OnlyChanges(m', m'', t, h'')
    ensures OnlyChanges(m, m'', t, h'')
  {
  }

  /** A free thread that only adds to its own active request leaves every waiter as blocked as before. */
  lemma NestingKeepsLine(m: Manager, blocked: set<Tid>, resuming: set<Tid>, t: Tid, e': Entry)
    requires Core(m, blocked, resuming) && NoLostWakeup(m, resuming)
    requires t !in blocked && t !in resuming && t in ByTid(m.active) && e'.tid == t
    requires forall a :: e'.Count(a) >= ByTid(m.active)[t].Count(a)
    ensures NoLostWakeup(m.(active := [e'] + Without(m.active, t)), resuming)
  {
    WithoutFacts(m.active, t);
    ConsFacts(e', Without(m.active, t));
    if SomeoneWaking(ByTid(m.active), resuming) {
      var w :| w in ByTid(m.active) && (ByTid(m.active)[w].signalled || w in resuming);
      assert w in ByTid([e'] + Without(m.active, t));
    }
  }

  /** A critical section that keeps the core and serves the line leads to a state that satisfies the invariant. */
  lemma SettleKeeps(s: State, t: Tid, o: Outcome)
    requires s.arrived == s.granted + Tids(s.m.pending)
    requires Core(o.m, if o.waits then s.blocked + {t} else s.blocked, s.resuming) && NoLostWakeup(o.m, s.resuming)
    requires Tids(s.m.pending) + (if o.waits then [t] else []) == o.woke + Tids(o.m.pending)
    ensures Inv(Settle(s, t, o))
  {
    var more := if o.waits then [t] else [];
    calc {
      s.arrived + more;
      s.granted + (Tids(s.m.pending) + more);
      s.granted + (o.woke + Tids(o.m.pending));
      (s.granted + o.woke) + Tids(o.m.pending);
    }
  }

  lemma NestedAcquireKeeps(s: State, t: Tid, a: Access)
    requires Inv(s) && Enabled(s, Event(t, DoAcquire(a))) && t in ByTid(s.m.active)
    requires a == Shared || ByTid(s.m.active)[t].Count(Exclusive) > 0
    ensures var s' := Next(s, Event(t, DoAcquire(a)));
            Inv(s') && OnlyChanges(s.m, s'.m, t, HistoryOf(s.m, t) + [a])
  {
    var e := ByTid(s.m.active)[t];
    var e' := e.(history := e.history + [a]);
    var rest := s.m.(active := Without(s.m.active, t));
    DetachActive(s.m, s.blocked, s.resuming, t);
    assert multiset(e'.history) == multiset(e.history) + multiset{a};
    ActivateOwn(rest, s.blocked, s.resuming, e');
    NestingKeepsLine(s.m, s.blocked, s.resuming, t, e');
    Compose(s.m, rest, rest.(active := [e'] + rest.active), t, [], e'.history);
    SettleKeeps(s, t, Acquire(s.m, t, a));
  }

  /** A request that has been detached and possibly changed asks for access. */
  lemma DetachedAsks(s: State, t: Tid, rest: Manager, e: Entry)
    requires Inv(s) && e.tid == t && OnlyChanges(s.m, rest, t, [])
    requires Core(rest, s.blocked, s.resuming) && CanJoin(e, rest, s.resuming) && rest.pending == s.m.pending
    ensures var o := SatisfyOwn(rest, e);
            Inv(Settle(s, t, o)) && OnlyChanges(s.m, o.m, t, e.history)
  {
    SatisfyOwnKeeps(rest, s.blocked, s.resuming, e);
    Compose(s.m, rest, SatisfyOwn(rest, e).m, t, [], e.history);
    SettleKeeps(s, t, SatisfyOwn(rest, e));
  }

  lemma AcquireKeeps(s: State, t: Tid, a: Access)
    requires Inv(s) && Enabled(s, Event(t, DoAcquire(a)))
    ensures var s' := Next(s, Event(t, DoAcquire(a)));
            Inv(s') && OnlyChanges(s.m, s'.m, t, HistoryOf(s.m, t) + [a])
  {
    if t !in ByTid(s.m.active) {
      var m' := if s.m.spare == [] then s.m else s.m.(spare := s.m.spare[1..]);
      DetachedAsks(s, t, m', Entry(t, [a], false));
    } else if a == Shared || ByTid(s.m.active)[t].Count(Exclusive) > 0 {
      NestedAcquireKeeps(s, t, a);
    } else {
      var e := ByTid(s.m.active)[t];
      DetachActive(s.m, s.blocked, s.resuming, t);
      DetachedAsks(s, t, s.m.(active := Without(s.m.active, t)), e.(history := e.history + [a]));
    }
  }

  /** After a critical section that ends by serving the head of the line. */
  lemma ServeKeeps(s: State, t: Tid, m': Manager, h: seq<Access>)
    requires Inv(s) && Core(m', s.blocked, s.resuming) && m'.pending == s.m.pending
    requires OnlyChanges(s.m, m', t, h)
    ensures var o := SatisfyHead(m'); Inv(Settle(s, t, o)) && OnlyChanges(s.m, o.m, t, h)
  {
    SatisfyHeadKeeps(m', s.blocked, s.resuming);
    var o := SatisfyHead(m');
    assert HistoryOf(o.m, t) == HistoryOf(m', t);
    assert OnlyChanges(m', o.m, t, h) by {
      forall x | x != t
        ensures HistoryOf(o.m, x) == HistoryOf(m', x)
      {
      }
    }
    Compose(s.m, m', o.m, t, h, h);
    SettleKeeps(s, t, o);
  }

  lemma ReleaseKeeps(s: State, t: Tid)
    requires Inv(s) && Enabled(s, Event(t, DoRelease))
    ensures var s' := Next(s, Event(t, DoRelease)); var h := HistoryOf(s.m, t);
            h != [] && Inv(s') && OnlyChanges(s.m, s'.m, t, h[..|h| - 1])
  {
    var h := ByTid(s.m.active)[t].history;
    GiveBack(s.m, s.blocked, s.resuming, t);
    ServeKeeps(s, t, GivenBack(s.m, t), h[..|h| - 1]);
  }

  lemma LessExclusive(h: seq<Access>)
    requires h != []
    ensures multiset(h[..|h| - 1])[Exclusive] <= multiset(h)[Exclusive]
  {
    assert h == h[..|h| - 1] + [h[|h| - 1]];
  }

  /** Taking the newest access off a free thread's request. */
  lemma GiveBack(m: Manager, blocked: set<Tid>, resuming: set<Tid>, t: Tid)
    requires Core(m, blocked, resuming) && t !in blocked && t !in resuming && t in ByTid(m.active)
    ensures var h := ByTid(m.active)[t].history;
            && h != [] && HistoryOf(m, t) == h && GivenBack(m, t).pending == m.pending
            && Core(GivenBack(m, t), blocked, resuming) && OnlyChanges(m, GivenBack(m, t), t, h[..|h| - 1])
  {
    var e := ByTid(m.active)[t];
    var rest := m.(active := Without(m.active, t));
    DetachActive(m, blocked, resuming, t);
    var e' := e.(history := e.history[..|e.history| - 1]);
    LessExclusive(e.history);
    if e'.history != [] {
      ActivateOwn(rest, blocked, resuming, e');
      Compose(m, rest, rest.(active := [e'] + rest.active), t, [], e'.history);
    }
  }

  lemma SuspendKeeps(s: State, t: Tid)
    requires Inv(s) && Enabled(s, Event(t, DoSuspend))
    ensures var s' := Next(s, Event(t, DoSuspend));
            Inv(s') && OnlyChanges(s.m, s'.m, t, HistoryOf(s.m, t))
  {
    var e := ByTid(s.m.active)[t];
    var rest := s.m.(active := Without(s.m.active, t));
    DetachActive(s.m, s.blocked, s.resuming, t);
    var m' := rest.(suspended := [e] + rest.suspended);
    ConsFacts(e, rest.suspended);
    TableJoinSuspended(ByTid(rest.active), ByTid(rest.pending), ByTid(rest.suspended), s.blocked, s.resuming, e);
    Compose(s.m, rest, m', t, [], e.history);
    ServeKeeps(s, t, m', e.history);
  }

  lemma ResumeKeeps(s: State, t: Tid)
    requires Inv(s) && Enabled(s, Event(t, DoResume))
    ensures var s' := Next(s, Event(t, DoResume));
            Inv(s') && OnlyChanges(s.m, s'.m, t, HistoryOf(s.m, t))
  {
    if t in ByTid(s.m.suspended) {
      DetachSuspended(s.m, s.blocked, s.resuming, t);
      DetachedAsks(s, t, s.m.(suspended := Without(s.m.suspended, t)), ByTid(s.m.suspended)[t]);
    } else {
      SettleKeeps(s, t, Resume(s.m, t));
    }
  }

  lemma ReacquireKeeps(s: State, t: Tid)
    requires Inv(s) && Enabled(s, Event(t, DoReacquireAtEnd))
    ensures var s' := Next(s, Event(t, DoReacquireAtEnd));
            Inv(s') && OnlyChanges(s.m, s'.m, t, HistoryOf(s.m, t))
  {
    if TotalAccesses(s.m.pending) == 0 {
      SettleKeeps(s, t, ReacquireAtEnd(s.m, t));
    } else {
      DetachActive(s.m, s.blocked, s.resuming, t);
      DetachedAsks(s, t, s.m.(active := Without(s.m.active, t)), ByTid(s.m.active)[t]);
    }
  }

  lemma QueryKeeps(s: State, t: Tid)
    requires Inv(s) && Enabled(s, Event(t, DoQuery))
    ensures var s' := Next(s, Event(t, DoQuery));
            Inv(s') && OnlyChanges(s.m, s'.m, t, HistoryOf(s.m, t))
  {
    if t in ByTid(s.m.active) {
      var e := ByTid(s.m.active)[t];
      var rest := s.m.(active := Without(s.m.active, t));
      DetachActive(s.m, s.blocked, s.resuming, t);
      ActivateOwn(rest, s.blocked, s.resuming, e);
      NestingKeepsLine(s.m, s.blocked, s.resuming, t, e);
      Compose(s.m, rest, rest.(active := [e] + rest.active), t, [], e.history);
    }
  }

  lemma ContinueKeeps(s: State, t: Tid)
    requires Inv(s) && Enabled(s, Event(t, DoContinue))
    ensures var s' := Next(s, Event(t, DoContinue));
            Inv(s') && OnlyChanges(s.m, s'.m, t, HistoryOf(s.m, t))
  {
    var s0 := s.(resuming := s.resuming - {t});
    SatisfyHeadKeeps(s.m, s.blocked, s0.resuming);
    SettleKeeps(s0, t, SatisfyHead(s.m));
    assert Next(s, Event(t, DoContinue)) == Settle(s0, t, SatisfyHead(s.m));
  }

  lemma {:induction false} ClearEventFacts(es: seq<Entry>, t: Tid)
    requires Distinct(es) && t in ByTid(es)
    ensures |ClearEvent(es, t)| == |es|
    ensures Distinct(ClearEvent(es, t))
    ensures ByTid(ClearEvent(es, t)) == ByTid(es)[t := ByTid(es)[t].(signalled := false)]
    ensures forall a :: Total(ClearEvent(es, t), a) == Total(es, a)
  {
    if es[0].tid == t {
      ConsFacts(es[0].(signalled := false), es[1..]);
    } else {
      ClearEventFacts(es[1..], t);
      ConsFacts(es[0], ClearEvent(es[1..], t));
    }
  }

  lemma {:induction false} ClearEventElsewhere(es: seq<Entry>, t: Tid)
    requires t !in ByTid(es)
    ensures ClearEvent(es, t) == es
  {
    if es != [] {
      ClearEventElsewhere(es[1..], t);
    }
  }

  lemma TableWake(a: Table, p: Table, u: Table, blocked: set<Tid>, resuming: set<Tid>, t: Tid)
    requires Paired(a, p, u, blocked, resuming) && t in a && a[t].signalled
    ensures var a' := a[t := a[t].(signalled := false)];
            && Paired(a', p, u, blocked - {t}, resuming + {t})
            && OnlyIn(a, p, u, a', p, u, t, HistoryIn(a, p, u, t))
            && SomeoneWaking(a', resuming + {t})
  {
    assert t in a[t := a[t].(signalled := false)] && t in resuming + {t};
  }

  /** An event lets its thread go only after the thread has been let in. */
  lemma WakeKeeps(s: State, t: Tid)
    requires Inv(s) && Enabled(s, Event(t, DoWake))
    ensures t in ByTid(s.m.active)
    ensures var s' := Next(s, Event(t, DoWake));
            Inv(s') && OnlyChanges(s.m, s'.m, t, HistoryOf(s.m, t))
  {
    ClearEventFacts(s.m.active, t);
    ClearEventElsewhere(s.m.pending, t);
    ClearEventElsewhere(s.m.suspended, t);
    TableWake(ByTid(s.m.active), ByTid(s.m.pending), ByTid(s.m.suspended), s.blocked, s.resuming, t);
  }

  /** What a thread's own events do to its history. */
  ghost function Replay(h: seq<Access>, op: Op): seq<Access> {
    match op
    case DoAcquire(a) => h + [a]
    case DoRelease => if h == [] then [] else h[..|h| - 1]
    case _ => h
  }

  /** One event of one thread keeps the invariant, replays on that thread's history and on no other's. */
  lemma StepKeeps(s: State, ev: Event)
    requires Inv(s) && Enabled(s, ev)
    ensures Inv(Next(s, ev)) && OnlyChanges(s.m, Next(s, ev).m, ev.tid, Replay(HistoryOf(s.m, ev.tid), ev.op))
  {
    match ev.op
    case DoAcquire(a) => AcquireKeeps(s, ev.tid, a);
    case DoRelease => ReleaseKeeps(s, ev.tid);
    case DoSuspend => SuspendKeeps(s, ev.tid);
    case DoResume => ResumeKeeps(s, ev.tid);
    case DoReacquireAtEnd => ReacquireKeeps(s, ev.tid);
    case DoQuery => QueryKeeps(s, ev.tid);
    case DoWake => WakeKeeps(s, ev.tid);
    case DoContinue => ContinueKeeps(s, ev.tid);
  }

  lemma {:induction false} RunKeeps(s: State, evs: seq<Event>)
    requires Inv(s) && IsRun(s, evs)
    ensures Inv(After(s, evs))
    decreases |evs|
  {
    if evs != [] {
      StepKeeps(s, evs[0]);
      RunKeeps(Next(s, evs[0]), evs[1..]);
    }
  }

  lemma InitOk()
    ensures Inv(Init())
  {
  }
}
